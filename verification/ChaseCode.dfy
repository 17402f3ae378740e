/** The code generator `chase_pointers`: the instruction list it asks for, and a small-step meaning of those
    instructions. */
module ChaseCode {
  import opened Wrappers
  import opened ByteMemory

  datatype MemOp = NoAccess | Load | Store | LoadAll | StoreAll

  datatype Config = Config(chains: nat, op: MemOp, stride: int, bytesPerLine: nat, loopLength: nat)

  /** Virtual registers, numbered in the order in which the compiler object hands them out. */
  type Reg = nat

  datatype Instr =
    | Ldr(dst: Reg, base: Reg, offset: int)
    | Str(src: Reg, base: Reg, offset: int)
    | Mov(dst: Reg, imm: int)
    | Nop
    | Cmp(left: Reg, right: Reg)
    | Bne(target: nat)

  // ----- the instruction list

  const ARG: Reg := 0
  const HEAD: Reg := 1
  const NEXT := 0
  const DATA := 8

  function Pos(i: nat): Reg { 2 + i }

  function Val(c: Config, j: nat): Reg { 2 + c.chains + j }

  function Abs(x: int): nat { if x < 0 then -x else x }

  /** Data registers, and lines accessed at every hop by the "all" operations. */
  function ValCount(c: Config): nat {
    if c.op.LoadAll? || c.op.StoreAll? then Abs(c.stride) else 1
  }

  /** Data accesses of a hop. */
  function DataCount(c: Config): nat { if c.op.NoAccess? then 0 else ValCount(c) }

  function LoadRoots(n: nat): seq<Instr> {
    if n == 0 then [] else LoadRoots(n - 1) + [Ldr(Pos(n - 1), ARG, 8 * (n - 1))]
  }

  function InitVals(c: Config, v: nat): seq<Instr> {
    if v == 0 then [] else InitVals(c, v - 1) + [Mov(Val(c, v - 1), 100 * (v - 1))]
  }

  /** Offset of the datum of the j-th following line. */
  function Offset(c: Config, j: nat): int {
    if j == 0 then DATA else Offset(c, j - 1) + c.bytesPerLine
  }

  lemma {:induction false} OffsetIs(c: Config, j: nat)
    ensures Offset(c, j) == j * c.bytesPerLine + DATA
  {
    if j > 0 {
      OffsetIs(c, j - 1);
      assert j * c.bytesPerLine == (j - 1) * c.bytesPerLine + c.bytesPerLine;
    }
  }

  /** One data access per value register. */
  function Sweep(c: Config, i: nat, v: nat): seq<Instr> {
    if v == 0 then []
    else Sweep(c, i, v - 1) +
         [if c.op.LoadAll? then Ldr(Val(c, v - 1), Pos(i), Offset(c, v - 1))
          else Str(Val(c, v - 1), Pos(i), Offset(c, v - 1))]
  }

  function Access(c: Config, i: nat): seq<Instr> {
    match c.op
    case NoAccess => []
    case Load => [Ldr(Val(c, 0), Pos(i), DATA)]
    case Store => [Str(Val(c, 0), Pos(i), DATA)]
    case LoadAll => Sweep(c, i, ValCount(c))
    case StoreAll => Sweep(c, i, ValCount(c))
  }

  function Hop(c: Config, i: nat): seq<Instr> {
    [Ldr(Pos(i), Pos(i), NEXT)] + Access(c, i)
  }

  function Hops(c: Config, n: nat): seq<Instr> {
    if n == 0 then [] else Hops(c, n - 1) + Hop(c, n - 1)
  }

  function Nops(n: nat): seq<Instr> {
    if n == 0 then [] else Nops(n - 1) + [Nop]
  }

  function Prologue(c: Config): seq<Instr> {
    [Ldr(HEAD, ARG, 0)] + LoadRoots(c.chains) + InitVals(c, ValCount(c))
  }

  /** Loop body without the closing branch. */
  function Body(c: Config): seq<Instr> {
    Hops(c, c.chains) + Nops(c.loopLength) + [Cmp(HEAD, Pos(0))]
  }

  function Program(c: Config): seq<Instr> {
    Prologue(c) + Body(c) + [Bne(|Prologue(c)|)]
  }

  // ----- the generator

  /** The compiler object: hands out registers and collects instructions. */
  class Compiler {
    var code: seq<Instr>
    var registers: nat

    constructor ()
      ensures code == [] && registers == 0
    {
      code, registers := [], 0;
    }

    method NewRegister() returns (r: Reg)
      modifies this`registers
      ensures r == old(registers) && registers == old(registers) + 1
    {
      r := registers;
      registers := registers + 1;
    }

    method Emit(i: Instr)
      modifies this`code
      ensures code == old(code) + [i]
    {
      code := code + [i];
    }

    method EmitAccess(c: Config, position: Reg, vals: seq<Reg>, ghost i: nat)
      requires |vals| == ValCount(c) && position == Pos(i) && forall j :: 0 <= j < |vals| ==> vals[j] == Val(c, j)
      modifies this`code
      ensures code == old(code) + Access(c, i)
    {
      if c.op == Load {
        Emit(Ldr(vals[0], position, DATA));
      } else if c.op == Store {
        Emit(Str(vals[0], position, DATA));
      } else if c.op == LoadAll {
        for j := 0 to |vals|
          invariant code == old(code) + Sweep(c, i, j)
        {
          OffsetIs(c, j);
          Emit(Ldr(vals[j], position, j * c.bytesPerLine + DATA));
        }
      } else if c.op == StoreAll {
        for j := 0 to |vals|
          invariant code == old(code) + Sweep(c, i, j)
        {
          OffsetIs(c, j);
          Emit(Str(vals[j], position, j * c.bytesPerLine + DATA));
        }
      }
    }

    method EmitPrologue(c: Config) returns (head: Reg, positions: seq<Reg>, vals: seq<Reg>)
      requires code == [] && registers == 0
      modifies this
      ensures code == Prologue(c) && head == HEAD
      ensures |positions| == c.chains && forall k :: 0 <= k < |positions| ==> positions[k] == Pos(k)
      ensures |vals| == ValCount(c) && forall k :: 0 <= k < |vals| ==> vals[k] == Val(c, k)
    {
      var chain := NewRegister();
      head := NewRegister();
      Emit(Ldr(head, chain, 0));
      positions := [];
      for i := 0 to c.chains
        invariant |positions| == i && registers == 2 + i
        invariant forall k :: 0 <= k < i ==> positions[k] == Pos(k)
        invariant code == [Ldr(HEAD, ARG, 0)] + LoadRoots(i)
      {
        var r := NewRegister();
        positions := positions + [r];
        Emit(Ldr(r, chain, i * 8));
      }
      vals := [];
      for i := 0 to ValCount(c)
        invariant |vals| == i && registers == 2 + c.chains + i
        invariant forall k :: 0 <= k < i ==> vals[k] == Val(c, k)
        invariant code == [Ldr(HEAD, ARG, 0)] + LoadRoots(c.chains) + InitVals(c, i)
      {
        var r := NewRegister();
        vals := vals + [r];
        Emit(Mov(r, 100 * i));
      }
    }

    method EmitHops(c: Config, positions: seq<Reg>, vals: seq<Reg>)
      requires |positions| == c.chains && forall k :: 0 <= k < |positions| ==> positions[k] == Pos(k)
      requires |vals| == ValCount(c) && forall k :: 0 <= k < |vals| ==> vals[k] == Val(c, k)
      modifies this`code
      ensures code == old(code) + Hops(c, c.chains)
    {
      for i := 0 to c.chains
        invariant code == old(code) + Hops(c, i)
      {
        Emit(Ldr(positions[i], positions[i], NEXT));
        EmitAccess(c, positions[i], vals, i);
        assert code == old(code) + (Hops(c, i) + Hop(c, i));
      }
    }

    method EmitNops(n: nat)
      modifies this`code
      ensures code == old(code) + Nops(n)
    {
      for i := 0 to n
        invariant code == old(code) + Nops(i)
      {
        Emit(Nop);
      }
    }

    method ChasePointers(c: Config)
      requires c.chains > 0 && code == [] && registers == 0
      modifies this
      ensures code == Program(c)
    {
      var head, positions, vals := EmitPrologue(c);
      var loop := |code|;
      EmitHops(c, positions, vals);
      EmitNops(c.loopLength);
      Emit(Cmp(head, positions[0]));
      Emit(Bne(loop));
      Regroup(Prologue(c), Hops(c, c.chains), Nops(c.loopLength), Cmp(HEAD, Pos(0)), Bne(|Prologue(c)|));
    }
  }

  lemma Regroup(p: seq<Instr>, h: seq<Instr>, n: seq<Instr>, cmp: Instr, bne: Instr)
    ensures p + h + n + [cmp] + [bne] == p + (h + n + [cmp]) + [bne]
  {
  }

  // ----- meaning of the instructions

  datatype Event = Read(addr: int) | Write(addr: int, value: int)

  datatype Machine = Machine(regs: map<Reg, int>, mem: Memory, equal: bool, log: seq<Event>)

  /** Effect of one instruction other than a branch; None is a fault. */
  function Effect(i: Instr, m: Machine): Option<Machine> {
    match i
    case Ldr(dst, base, offset) =>
      if base in m.regs && Has(m.mem, m.regs[base] + offset) then
        var a := m.regs[base] + offset;
        Some(m.(regs := m.regs[dst := Word(m.mem, a)], log := m.log + [Read(a)]))
      else None
    case Str(src, base, offset) =>
      if src in m.regs && base in m.regs && Has(m.mem, m.regs[base] + offset) then
        var a := m.regs[base] + offset;
        Some(m.(mem := Put(m.mem, a, m.regs[src]), log := m.log + [Write(a, m.regs[src])]))
      else None
    case Mov(dst, imm) => Some(m.(regs := m.regs[dst := imm]))
    case Nop => Some(m)
    case Cmp(left, right) =>
      if left in m.regs && right in m.regs then Some(m.(equal := m.regs[left] == m.regs[right])) else None
    case Bne(_) => Some(m)
  }

  datatype State = State(pc: nat, m: Machine) | Fault

  /** One step. A state whose pc is the length of the code has returned and does not move. */
  function Step(code: seq<Instr>, s: State): State {
    if s.Fault? || s.pc >= |code| then s
    else match Effect(code[s.pc], s.m)
      case None => Fault
      case Some(m) =>
        if code[s.pc].Bne? && !s.m.equal then State(code[s.pc].target, m) else State(s.pc + 1, m)
  }

  function Run(code: seq<Instr>, s: State, n: nat): State {
    if n == 0 then s else Step(code, Run(code, s, n - 1))
  }

  lemma {:induction false} RunAdd(code: seq<Instr>, s: State, a: nat, b: nat)
    ensures Run(code, Run(code, s, a), b) == Run(code, s, a + b)
    decreases b
  {
    if b > 0 { RunAdd(code, s, a, b - 1); }
  }

  /** n steps lead from s to s'. As in Runs below, the bound variable keeps the steps folded. */
  ghost predicate Reaches(code: seq<Instr>, s: State, n: nat, s': State) {
    forall k :: k == n ==> Run(code, s, k) == s'
  }

  lemma ReachesThen(code: seq<Instr>, s: State, a: nat, s1: State, b: nat, s2: State)
    requires Reaches(code, s, a, s1) && Reaches(code, s1, b, s2)
    ensures Reaches(code, s, a + b, s2)
  {
    assert Run(code, s, a) == s1 && Run(code, s1, b) == s2;
    RunAdd(code, s, a, b);
  }

  /** Execution of the first n instructions of a branch-free stretch. */
  function ExecTo(code: seq<Instr>, m: Machine, n: nat): Option<Machine>
    requires n <= |code|
  {
    if n == 0 then Some(m)
    else match ExecTo(code, m, n - 1)
      case None => None
      case Some(m') => Effect(code[n - 1], m')
  }

  /** The whole stretch takes m to m' without a fault. The length is bound by a quantifier so that the
      verifier unfolds the execution only where ExecTo is mentioned. */
  ghost predicate Runs(code: seq<Instr>, m: Machine, m': Machine) {
    forall n :: n == |code| ==> ExecTo(code, m, n) == Some(m')
  }

  predicate BranchFree(code: seq<Instr>) {
    forall k :: 0 <= k < |code| ==> !code[k].Bne?
  }

  lemma {:induction false} ExecPrefix(a: seq<Instr>, b: seq<Instr>, m: Machine, n: nat)
    requires n <= |a|
    ensures ExecTo(a + b, m, n) == ExecTo(a, m, n)
    decreases n
  {
    if n > 0 { ExecPrefix(a, b, m, n - 1); }
  }

  lemma {:induction false} ExecSuffix(a: seq<Instr>, b: seq<Instr>, m: Machine, m1: Machine, n: nat)
    requires n <= |b| && ExecTo(a, m, |a|) == Some(m1)
    ensures ExecTo(a + b, m, |a| + n) == ExecTo(b, m1, n)
    decreases n
  {
    if n == 0 {
      ExecPrefix(a, b, m, |a|);
    } else {
      ExecSuffix(a, b, m, m1, n - 1);
      assert (a + b)[|a| + n - 1] == b[n - 1];
    }
  }

  lemma ExecThen(a: seq<Instr>, b: seq<Instr>, m: Machine, m1: Machine, m2: Machine)
    requires Runs(a, m, m1) && Runs(b, m1, m2)
    ensures Runs(a + b, m, m2)
  {
    assert ExecTo(a, m, |a|) == Some(m1) && ExecTo(b, m1, |b|) == Some(m2);
    ExecSuffix(a, b, m, m1, |b|);
  }

  lemma ExecNothing(m: Machine)
    ensures Runs([], m, m)
  {
  }

  lemma ExecSingle(i: Instr, m: Machine, m': Machine)
    requires Effect(i, m) == Some(m')
    ensures Runs([i], m, m')
  {
    assert ExecTo([i], m, 0) == Some(m);
  }

  lemma ExecThenOne(a: seq<Instr>, i: Instr, m: Machine, m1: Machine, m2: Machine)
    requires Runs(a, m, m1) && Effect(i, m1) == Some(m2)
    ensures Runs(a + [i], m, m2)
  {
    ExecSingle(i, m1, m2);
    ExecThen(a, [i], m, m1, m2);
  }

  /** Small steps through a branch-free stretch are its execution. */
  lemma {:induction false} RunStretch(code: seq<Instr>, at: nat, stretch: seq<Instr>, m: Machine, m': Machine, n: nat)
    requires at + |stretch| <= |code| && code[at..at + |stretch|] == stretch && BranchFree(stretch)
    requires n <= |stretch| && ExecTo(stretch, m, n) == Some(m')
    ensures Run(code, State(at, m), n) == State(at + n, m')
    decreases n
  {
    if n > 0 {
      var m1 := ExecTo(stretch, m, n - 1).value;
      RunStretch(code, at, stretch, m, m1, n - 1);
      assert code[at + n - 1] == stretch[n - 1];
    }
  }
}
