/** A run whose stores break its ring: lines that are not made of whole links. */
module SkewedLines {
  import opened Wrappers
  import opened Geometry
  import opened Ring
  import opened ChainInit
  import opened ByteMemory
  import opened ChaseCode
  import opened ChaseRefines
  import opened ChaseOnRings

  /** A 24-byte line holds one link, so the second line of a sweep starts eight bytes into the next link. */
  const SKEWED := Config(1, StoreAll, 2, 24, 0)

  lemma SkewedProgram()
    ensures |Prologue(SKEWED)| == 4
    ensures Program(SKEWED) ==
      [Ldr(1, 0, 0), Ldr(2, 0, 0), Mov(3, 0), Mov(4, 100), Ldr(2, 2, 0), Str(3, 2, 8), Str(4, 2, 32), Cmp(1, 2), Bne(4)]
  {
    assert LoadRoots(1) == [Ldr(2, 0, 0)];
    assert InitVals(SKEWED, 2) == InitVals(SKEWED, 1) + [Mov(4, 100)] && InitVals(SKEWED, 1) == [Mov(3, 0)];
    assert Offset(SKEWED, 1) == 32;
    assert Sweep(SKEWED, 0, 2) == Sweep(SKEWED, 0, 1) + [Str(4, 2, 32)] && Sweep(SKEWED, 0, 1) == [Str(3, 2, 8)];
    assert Hops(SKEWED, 1) == [Ldr(2, 2, 0), Str(3, 2, 8), Str(4, 2, 32)];
  }

  /** Six lines in one page, and the forward order of stride 2: slots 0, 2 and 4. */
  lemma SkewedRing() returns (g: Geometry, order: seq<nat>)
    ensures g == Rounded(24, 144, 144) && WellFormed(g) && g.linksPerChain == 6
    ensures order == ForwardOrder(g, 2) && order == [0, 2, 4] && Successor(order, 0) == 2 && Successor(order, 4) == 0
  {
    g := Rounded(24, 144, 144);
    order := ForwardOrder(g, 2);
    ForwardNoRepeat(g, 2);
    assert |order| == 3;
    assert order[0] == StrideSlot(g, 2, 0) && order[1] == StrideSlot(g, 2, 1) && order[2] == StrideSlot(g, 2, 2);
    SuccessorAt(order, 0);
    SuccessorAt(order, 2);
  }

  lemma OneStep(code: seq<Instr>, s: State, n: nat, m: Machine, m': Machine)
    requires n < |code| && !code[n].Bne? && Run(code, s, n) == State(n, m) && Effect(code[n], m) == Some(m')
    ensures Run(code, s, n + 1) == State(n + 1, m')
  {
  }

  /** The four instructions before the loop, then the first hop. */
  lemma SkewedSteps(mem: Memory, base: int, arg: int) returns (m: Machine)
    requires Has(mem, arg) && Word(mem, arg) == base && Has(mem, base) && Word(mem, base) == base + 32
    requires Has(mem, base + 40) && Has(mem, base + 64)
    ensures Reaches(Program(SKEWED), State(0, Call(arg, mem, false)), 7, State(7, m))
    ensures m.mem == Put(Put(mem, base + 40, 0), base + 64, 100)
  {
    SkewedProgram();
    PutKeys(mem, base + 40, 0);
    var code, m0 := Program(SKEWED), Call(arg, mem, false);
    var s := State(0, m0);
    var m1 := m0.(regs := m0.regs[1 := base], log := m0.log + [Read(arg)]);
    OneStep(code, s, 0, m0, m1);
    var m2 := m1.(regs := m1.regs[2 := base], log := m1.log + [Read(arg)]);
    OneStep(code, s, 1, m1, m2);
    var m3 := m2.(regs := m2.regs[3 := 0]);
    OneStep(code, s, 2, m2, m3);
    var m4 := m3.(regs := m3.regs[4 := 100]);
    OneStep(code, s, 3, m3, m4);
    var m5 := m4.(regs := m4.regs[2 := base + 32], log := m4.log + [Read(base)]);
    OneStep(code, s, 4, m4, m5);
    var m6 := m5.(mem := Put(mem, base + 40, 0), log := m5.log + [Write(base + 40, 0)]);
    OneStep(code, s, 5, m5, m6);
    m := m6.(mem := Put(m6.mem, base + 64, 100), log := m6.log + [Write(base + 64, 100)]);
    OneStep(code, s, 6, m6, m);
  }

  /** Lines of 24 bytes, forward stride 2, store_all, six lines: the first hop arrives at slot 2, and the
      store to the second line from there overwrites the `next` field of slot 4, a link of the ring. */
  lemma StoreBreaksRing(mem: Memory, base: int, arg: int) returns (m: Machine)
    requires LaidOut(Rounded(24, 144, 144), mem, Chain(base, ForwardOrder(Rounded(24, 144, 144), 2)))
    requires RootsAt(mem, arg, [base])
    ensures Reaches(Program(SKEWED), State(0, Call(arg, mem, false)), 7, State(7, m))
    ensures Word(mem, base + 16 * 4) == base && Word(m.mem, base + 16 * 4) == 100 != base
  {
    SkewedMemory(mem, base, arg);
    m := SkewedSteps(mem, base, arg);
    WordPut(Put(mem, base + 40, 0), base + 64, 100);
  }

  lemma SkewedMemory(mem: Memory, base: int, arg: int)
    requires LaidOut(Rounded(24, 144, 144), mem, Chain(base, ForwardOrder(Rounded(24, 144, 144), 2)))
    requires RootsAt(mem, arg, [base])
    ensures Has(mem, arg) && Word(mem, arg) == base && Has(mem, base) && Word(mem, base) == base + 32
    ensures Has(mem, base + 40) && Has(mem, base + 64) && Word(mem, base + 64) == base && base % 16 == 0
  {
    var g, order := SkewedRing();
    var ch := Chain(base, order);
    NextLink(g, mem, ch, 0);
    NextLink(g, mem, ch, 4);
    assert [base][0] == base && Has(mem, arg + 8 * 0);
    WordInRegion(g, mem, ch, base);
    WordInRegion(g, mem, ch, base + 40);
    WordInRegion(g, mem, ch, base + 64);
  }
}
