/** The emitted list refines its specification: advance every chain by one hop, in chain order, at least
    once and until chain 0 is back at its head. */
module ChaseRefines {
  import opened Wrappers
  import opened ByteMemory
  import opened ChaseCode

  // ----- the specification, in terms of the memory at the call

  /** The node reached from address a after t hops. */
  function At(mem: Memory, a: int, t: nat): int {
    if t == 0 then a else Word(mem, At(mem, a, t - 1))
  }

  function SweepLog(c: Config, p: int, v: nat): seq<Event> {
    if v == 0 then []
    else SweepLog(c, p, v - 1) +
         [if c.op.LoadAll? then Read(p + Offset(c, v - 1)) else Write(p + Offset(c, v - 1), 100 * (v - 1))]
  }

  /** Data accesses after arriving at node p. */
  function AccessLog(c: Config, p: int): seq<Event> {
    match c.op
    case NoAccess => []
    case Load => [Read(p + DATA)]
    case Store => [Write(p + DATA, 0)]
    case LoadAll => SweepLog(c, p, ValCount(c))
    case StoreAll => SweepLog(c, p, ValCount(c))
  }

  function HopLog(c: Config, p: int, q: int): seq<Event> {
    [Read(p + NEXT)] + AccessLog(c, q)
  }

  /** Accesses of the first n chains in round t. */
  function RoundLog(c: Config, mem: Memory, roots: seq<int>, t: nat, n: nat): seq<Event>
    requires n <= |roots|
  {
    if n == 0 then []
    else RoundLog(c, mem, roots, t, n - 1) + HopLog(c, At(mem, roots[n - 1], t), At(mem, roots[n - 1], t + 1))
  }

  /** Accesses of the first k rounds. */
  function PassLog(c: Config, mem: Memory, roots: seq<int>, k: nat): seq<Event> {
    if k == 0 then [] else PassLog(c, mem, roots, k - 1) + RoundLog(c, mem, roots, k - 1, |roots|)
  }

  /** Accesses of the function entry, which reads the caller's array of roots. */
  function RootsLog(arg: int, n: nat): seq<Event> {
    if n == 0 then [] else RootsLog(arg, n - 1) + [Read(arg + 8 * (n - 1))]
  }

  function EntryLog(arg: int, n: nat): seq<Event> {
    [Read(arg)] + RootsLog(arg, n)
  }

  /** Memory after one event. */
  function After(mem: Memory, e: Event): Memory {
    match e
    case Read(_) => mem
    case Write(a, x) => Put(mem, a, x)
  }

  /** Memory after the writes of a log. */
  function Replay(mem: Memory, log: seq<Event>): Memory {
    if log == [] then mem else After(Replay(mem, log[..|log| - 1]), log[|log| - 1])
  }

  predicate Stores(c: Config) { c.op.Store? || c.op.StoreAll? }

  /** What a call needs from memory. `nodes` are the addresses of links on rings; `fixed` are the words that
      must survive, the `next` fields of the nodes among them. */
  ghost predicate Sound(c: Config, mem: Memory, nodes: set<int>, fixed: set<int>) {
    && nodes <= fixed && NodesMapped(mem, nodes) && NodesClosed(mem, nodes)
    && AccessesMapped(c, mem, nodes) && (Stores(c) ==> StoresMiss(c, nodes, fixed))
  }

  ghost predicate NodesMapped(mem: Memory, nodes: set<int>) {
    forall a :: a in nodes ==> Has(mem, a)
  }

  ghost predicate NodesClosed(mem: Memory, nodes: set<int>) {
    forall a {:trigger Word(mem, a)} :: a in nodes ==> Word(mem, a) in nodes
  }

  ghost predicate AccessesMapped(c: Config, mem: Memory, nodes: set<int>) {
    forall a, j {:trigger a in nodes, Offset(c, j)} :: a in nodes && 0 <= j < DataCount(c) ==>
      Has(mem, a + Offset(c, j))
  }

  /** No data access from a node shares a byte with a fixed word. */
  ghost predicate StoresMiss(c: Config, nodes: set<int>, fixed: set<int>) {
    forall a, j {:trigger a in nodes, Offset(c, j)} :: a in nodes && 0 <= j < DataCount(c) ==>
      Misses(a + Offset(c, j), fixed)
  }

  ghost predicate Misses(a: int, fixed: set<int>) {
    forall w :: w in fixed ==> !Overlap(a, w)
  }

  lemma {:induction false} AtStaysOnNodes(c: Config, mem: Memory, nodes: set<int>, fixed: set<int>, a: int, t: nat)
    requires Sound(c, mem, nodes, fixed) && a in nodes
    ensures At(mem, a, t) in nodes
    decreases t
  {
    if t > 0 { AtStaysOnNodes(c, mem, nodes, fixed, a, t - 1); }
  }

  /** First round after which chain 0 is home. */
  ghost predicate HomeAfter(mem: Memory, root: int, k: nat) {
    1 <= k && At(mem, root, k) == root && forall j :: 1 <= j < k ==> At(mem, root, j) != root
  }

  // ----- simulation

  ghost predicate Ready(c: Config, mem: Memory, fixed: set<int>, m: Machine) {
    && (forall j :: 0 <= j < ValCount(c) ==> Val(c, j) in m.regs && (Stores(c) ==> m.regs[Val(c, j)] == 100 * j))
    && SameFixed(mem, fixed, m.mem)
  }

  /** The same bytes are mapped and the fixed words are unchanged. */
  ghost predicate SameFixed(mem: Memory, fixed: set<int>, mem': Memory) {
    mem'.Keys == mem.Keys && forall a {:trigger Word(mem', a)} :: a in fixed ==> Word(mem', a) == Word(mem, a)
  }

  lemma PutKeepsFixed(mem: Memory, fixed: set<int>, mem1: Memory, a: int, x: int)
    requires SameFixed(mem, fixed, mem1) && Has(mem1, a) && Misses(a, fixed)
    ensures SameFixed(mem, fixed, Put(mem1, a, x))
  {
    PutKeys(mem1, a, x);
    var mem2 := Put(mem1, a, x);
    forall w {:trigger Word(mem2, w)} | w in fixed ensures Word(mem2, w) == Word(mem, w) {
      WordApart(mem1, a, x, w);
    }
  }

  /** The head and position registers are the same. */
  ghost predicate SamePlaces(c: Config, m: Machine, m': Machine) {
    forall r :: 0 <= r < 2 + c.chains && r in m.regs ==> r in m'.regs && m'.regs[r] == m.regs[r]
  }

  lemma ReplayOne(mem: Memory, log: seq<Event>, e: Event)
    ensures Replay(mem, log + [e]) == After(Replay(mem, log), e)
  {
    assert (log + [e])[..|log|] == log;
  }

  /** m' has logged `events` since m. */
  ghost predicate Logged(m: Machine, m': Machine, events: seq<Event>) {
    m'.log == m.log + events
  }

  lemma LoggedThen(m: Machine, m1: Machine, m2: Machine, x: seq<Event>, y: seq<Event>)
    requires Logged(m, m1, x) && Logged(m1, m2, y)
    ensures Logged(m, m2, x + y)
  {
    assert m.log + x + y == m.log + (x + y);
  }

  function DataInstr(c: Config, i: nat, j: nat): Instr {
    if Stores(c) then Str(Val(c, j), Pos(i), Offset(c, j)) else Ldr(Val(c, j), Pos(i), Offset(c, j))
  }

  function DataEvent(c: Config, p: int, j: nat): Event {
    if Stores(c) then Write(p + Offset(c, j), 100 * j) else Read(p + Offset(c, j))
  }

  /** m' is m after some data accesses from node p, logged as `events`. */
  ghost predicate Accessed(c: Config, mem: Memory, fixed: set<int>, m: Machine, m': Machine, events: seq<Event>) {
    Ready(c, mem, fixed, m') && SamePlaces(c, m, m') && Logged(m, m', events)
  }

  lemma AccessedThen(c: Config, mem: Memory, fixed: set<int>, m: Machine, m1: Machine, m2: Machine, x: seq<Event>,
                     y: seq<Event>)
    requires Accessed(c, mem, fixed, m, m1, x) && Accessed(c, mem, fixed, m1, m2, y)
    ensures Accessed(c, mem, fixed, m, m2, x + y)
  {
    LoggedThen(m, m1, m2, x, y);
  }

  lemma DataAccess(c: Config, mem: Memory, nodes: set<int>, fixed: set<int>, m: Machine, i: nat, j: nat)
    returns (m': Machine)
    requires Sound(c, mem, nodes, fixed) && Ready(c, mem, fixed, m) && i < c.chains && j < DataCount(c)
    requires Pos(i) in m.regs && m.regs[Pos(i)] in nodes
    ensures Effect(DataInstr(c, i, j), m) == Some(m')
    ensures Accessed(c, mem, fixed, m, m', [DataEvent(c, m.regs[Pos(i)], j)])
  {
    if Stores(c) { PutKeepsFixed(mem, fixed, m.mem, m.regs[Pos(i)] + Offset(c, j), m.regs[Val(c, j)]); }
    m' := Effect(DataInstr(c, i, j), m).value;
  }

  lemma SweepRuns(c: Config, mem: Memory, nodes: set<int>, fixed: set<int>, m: Machine, i: nat)
    returns (code: seq<Instr>, events: seq<Event>, m': Machine)
    requires Sound(c, mem, nodes, fixed) && Ready(c, mem, fixed, m) && i < c.chains
    requires Pos(i) in m.regs && m.regs[Pos(i)] in nodes && (c.op.LoadAll? || c.op.StoreAll?)
    ensures code == Sweep(c, i, ValCount(c)) && events == SweepLog(c, m.regs[Pos(i)], ValCount(c))
    ensures Runs(code, m, m') && Accessed(c, mem, fixed, m, m', events)
  {
    var p := m.regs[Pos(i)];
    code, events, m' := [], [], m;
    ExecNothing(m);
    for v := 0 to ValCount(c)
      invariant code == Sweep(c, i, v) && events == SweepLog(c, p, v)
      invariant Runs(code, m, m') && Accessed(c, mem, fixed, m, m', events)
    {
      assert Pos(i) < 2 + c.chains;
      var m2 := DataAccess(c, mem, nodes, fixed, m', i, v);
      ExecThenOne(code, DataInstr(c, i, v), m, m', m2);
      AccessedThen(c, mem, fixed, m, m', m2, events, [DataEvent(c, p, v)]);
      SweepUnfold(c, i, p, v + 1, code, events);
      code, events, m' := code + [DataInstr(c, i, v)], events + [DataEvent(c, p, v)], m2;
    }
  }

  lemma SweepUnfold(c: Config, i: nat, p: int, v: nat, code: seq<Instr>, events: seq<Event>)
    requires v > 0 && code == Sweep(c, i, v - 1) && events == SweepLog(c, p, v - 1) && (c.op.LoadAll? || c.op.StoreAll?)
    ensures code + [DataInstr(c, i, v - 1)] == Sweep(c, i, v)
    ensures events + [DataEvent(c, p, v - 1)] == SweepLog(c, p, v)
  {
  }

  lemma AccessRuns(c: Config, mem: Memory, nodes: set<int>, fixed: set<int>, m: Machine, i: nat)
    returns (code: seq<Instr>, events: seq<Event>, m': Machine)
    requires Sound(c, mem, nodes, fixed) && Ready(c, mem, fixed, m) && i < c.chains
    requires Pos(i) in m.regs && m.regs[Pos(i)] in nodes
    ensures code == Access(c, i) && events == AccessLog(c, m.regs[Pos(i)])
    ensures Runs(code, m, m') && Accessed(c, mem, fixed, m, m', events)
  {
    if c.op.LoadAll? || c.op.StoreAll? {
      code, events, m' := SweepRuns(c, mem, nodes, fixed, m, i);
    } else if c.op.NoAccess? {
      code, events, m' := [], [], m;
      ExecNothing(m);
    } else {
      m' := DataAccess(c, mem, nodes, fixed, m, i, 0);
      code, events := [DataInstr(c, i, 0)], [DataEvent(c, m.regs[Pos(i)], 0)];
      ExecSingle(DataInstr(c, i, 0), m, m');
    }
  }

  /** In round t the first n chains have hopped, the others have not. */
  ghost predicate Places(c: Config, mem: Memory, roots: seq<int>, m: Machine, t: nat, n: nat)
    requires |roots| == c.chains > 0
  {
    && HEAD in m.regs && m.regs[HEAD] == roots[0]
    && forall i :: 0 <= i < c.chains ==>
         Pos(i) in m.regs && m.regs[Pos(i)] == At(mem, roots[i], if i < n then t + 1 else t)
  }

  /** The simulation relation inside round t. */
  ghost predicate InRound(c: Config, mem: Memory, fixed: set<int>, roots: seq<int>, m: Machine, t: nat, n: nat) {
    |roots| == c.chains > 0 && Ready(c, mem, fixed, m) && Places(c, mem, roots, m, t, n)
  }

  ghost predicate OnNodes(c: Config, nodes: set<int>, roots: seq<int>) {
    |roots| == c.chains > 0 && forall i :: 0 <= i < c.chains ==> roots[i] in nodes
  }

  lemma ChaseStep(c: Config, mem: Memory, nodes: set<int>, fixed: set<int>, roots: seq<int>, m: Machine, t: nat, n: nat)
    returns (m': Machine)
    requires Sound(c, mem, nodes, fixed) && OnNodes(c, nodes, roots) && n < c.chains
    requires InRound(c, mem, fixed, roots, m, t, n)
    ensures Effect(Ldr(Pos(n), Pos(n), NEXT), m) == Some(m')
    ensures InRound(c, mem, fixed, roots, m', t, n + 1)
    ensures Logged(m, m', [Read(At(mem, roots[n], t) + NEXT)])
    ensures m'.regs[Pos(n)] == At(mem, roots[n], t + 1) && m'.regs[Pos(n)] in nodes
  {
    var p := At(mem, roots[n], t);
    AtStaysOnNodes(c, mem, nodes, fixed, roots[n], t);
    AtStaysOnNodes(c, mem, nodes, fixed, roots[n], t + 1);
    assert p in fixed && m.regs[Pos(n)] == p;
    m' := Effect(Ldr(Pos(n), Pos(n), NEXT), m).value;
  }

  lemma PlacesKept(c: Config, mem: Memory, roots: seq<int>, m: Machine, m': Machine, t: nat, n: nat)
    requires |roots| == c.chains > 0 && Places(c, mem, roots, m, t, n) && SamePlaces(c, m, m')
    ensures Places(c, mem, roots, m', t, n)
  {
    forall i | 0 <= i < c.chains ensures Pos(i) in m'.regs && m'.regs[Pos(i)] == m.regs[Pos(i)] {
      assert Pos(i) < 2 + c.chains;
    }
  }

  lemma HopRuns(c: Config, mem: Memory, nodes: set<int>, fixed: set<int>, roots: seq<int>, m: Machine, t: nat, n: nat)
    returns (code: seq<Instr>, events: seq<Event>, m': Machine)
    requires Sound(c, mem, nodes, fixed) && OnNodes(c, nodes, roots) && n < c.chains
    requires InRound(c, mem, fixed, roots, m, t, n)
    ensures code == Hop(c, n) && events == HopLog(c, At(mem, roots[n], t), At(mem, roots[n], t + 1))
    ensures Runs(code, m, m') && Logged(m, m', events)
    ensures InRound(c, mem, fixed, roots, m', t, n + 1)
  {
    var ldr, p := Ldr(Pos(n), Pos(n), NEXT), At(mem, roots[n], t);
    var m1 := ChaseStep(c, mem, nodes, fixed, roots, m, t, n);
    var code2, events2, m2 := AccessRuns(c, mem, nodes, fixed, m1, n);
    PlacesKept(c, mem, roots, m1, m2, t, n + 1);
    ExecSingle(ldr, m, m1);
    ExecThen([ldr], code2, m, m1, m2);
    LoggedThen(m, m1, m2, [Read(p + NEXT)], events2);
    code, events, m' := [ldr] + code2, [Read(p + NEXT)] + events2, m2;
  }

  /** The first n chains of round t take m to m'. */
  ghost predicate RoundRuns(c: Config, mem: Memory, fixed: set<int>, roots: seq<int>, m: Machine, t: nat, n: nat,
                            m': Machine)
    requires n <= |roots|
  {
    && Runs(Hops(c, n), m, m') && Logged(m, m', RoundLog(c, mem, roots, t, n))
    && InRound(c, mem, fixed, roots, m', t, n)
  }

  lemma RoundStep(c: Config, mem: Memory, nodes: set<int>, fixed: set<int>, roots: seq<int>, m: Machine, t: nat,
                  n: nat, m1: Machine)
    returns (m': Machine)
    requires Sound(c, mem, nodes, fixed) && OnNodes(c, nodes, roots) && 0 < n <= c.chains
    requires RoundRuns(c, mem, fixed, roots, m, t, n - 1, m1)
    ensures RoundRuns(c, mem, fixed, roots, m, t, n, m')
  {
    var code1, events1 := Hops(c, n - 1), RoundLog(c, mem, roots, t, n - 1);
    assert Runs(code1, m, m1) && Logged(m, m1, events1);
    var code2, events2, m2 := HopRuns(c, mem, nodes, fixed, roots, m1, t, n - 1);
    ExecThen(code1, code2, m, m1, m2);
    LoggedThen(m, m1, m2, events1, events2);
    HopsUnfold(c, mem, roots, t, n, code1, code2, events1, events2);
    m' := m2;
  }

  lemma RoundStart(c: Config, mem: Memory, fixed: set<int>, roots: seq<int>, m: Machine, t: nat)
    requires InRound(c, mem, fixed, roots, m, t, 0)
    ensures RoundRuns(c, mem, fixed, roots, m, t, 0, m)
  {
    ExecNothing(m);
    assert Logged(m, m, []);
  }

  lemma {:induction false} HopsRun(c: Config, mem: Memory, nodes: set<int>, fixed: set<int>, roots: seq<int>,
                                   m: Machine, t: nat, n: nat)
    returns (m': Machine)
    requires Sound(c, mem, nodes, fixed) && OnNodes(c, nodes, roots) && n <= c.chains
    requires InRound(c, mem, fixed, roots, m, t, 0)
    ensures RoundRuns(c, mem, fixed, roots, m, t, n, m')
    decreases n
  {
    if n == 0 {
      RoundStart(c, mem, fixed, roots, m, t);
      m' := m;
    } else {
      var m1 := HopsRun(c, mem, nodes, fixed, roots, m, t, n - 1);
      m' := RoundStep(c, mem, nodes, fixed, roots, m, t, n, m1);
    }
  }

  lemma HopsUnfold(c: Config, mem: Memory, roots: seq<int>, t: nat, n: nat, code1: seq<Instr>, code2: seq<Instr>,
                   events1: seq<Event>, events2: seq<Event>)
    requires 0 < n <= |roots|
    requires code1 == Hops(c, n - 1) && code2 == Hop(c, n - 1) && events1 == RoundLog(c, mem, roots, t, n - 1)
    requires events2 == HopLog(c, At(mem, roots[n - 1], t), At(mem, roots[n - 1], t + 1))
    ensures code1 + code2 == Hops(c, n) && events1 + events2 == RoundLog(c, mem, roots, t, n)
  {
  }

  lemma {:induction false} NopsRun(n: nat, m: Machine)
    ensures Runs(Nops(n), m, m)
  {
    if n > 0 {
      NopsRun(n - 1, m);
      ExecThenOne(Nops(n - 1), Nop, m, m, m);
    }
  }

  /** One round: all chains hop, then the flag says whether chain 0 is home. */
  lemma BodyRuns(c: Config, mem: Memory, nodes: set<int>, fixed: set<int>, roots: seq<int>, m: Machine, t: nat)
    returns (m': Machine)
    requires Sound(c, mem, nodes, fixed) && OnNodes(c, nodes, roots)
    requires InRound(c, mem, fixed, roots, m, t, 0)
    ensures Runs(Body(c), m, m') && Logged(m, m', RoundLog(c, mem, roots, t, c.chains))
    ensures InRound(c, mem, fixed, roots, m', t + 1, 0)
    ensures m'.equal == (At(mem, roots[0], t + 1) == roots[0])
  {
    var m1 := HopsRun(c, mem, nodes, fixed, roots, m, t, c.chains);
    NopsRun(c.loopLength, m1);
    ExecThen(Hops(c, c.chains), Nops(c.loopLength), m, m1, m1);
    m' := CompareRuns(c, mem, fixed, roots, m1, t);
    ExecThenOne(Hops(c, c.chains) + Nops(c.loopLength), Cmp(HEAD, Pos(0)), m, m1, m');
  }

  lemma CompareRuns(c: Config, mem: Memory, fixed: set<int>, roots: seq<int>, m: Machine, t: nat) returns (m': Machine)
    requires |roots| == c.chains > 0 && InRound(c, mem, fixed, roots, m, t, c.chains)
    ensures Effect(Cmp(HEAD, Pos(0)), m) == Some(m') && m'.log == m.log
    ensures InRound(c, mem, fixed, roots, m', t + 1, 0)
    ensures m'.equal == (At(mem, roots[0], t + 1) == roots[0])
  {
    assert m.regs[Pos(0)] == At(mem, roots[0], t + 1);
    m' := m.(equal := m.regs[HEAD] == m.regs[Pos(0)]);
  }

  // ----- entry of the function

  function Call(arg: int, mem: Memory, flag: bool): Machine {
    Machine(map[ARG := arg], mem, flag, [])
  }

  /** The argument points at an array that holds the roots. */
  ghost predicate RootsAt(mem: Memory, arg: int, roots: seq<int>) {
    forall i :: 0 <= i < |roots| ==> Has(mem, arg + 8 * i) && Word(mem, arg + 8 * i) == roots[i]
  }

  /** Head and the first n positions are loaded. */
  ghost predicate Loaded(mem: Memory, arg: int, roots: seq<int>, n: nat, m: Machine)
    requires 0 < |roots| && n <= |roots|
  {
    && m.mem == mem && ARG in m.regs && m.regs[ARG] == arg && HEAD in m.regs && m.regs[HEAD] == roots[0]
    && forall i :: 0 <= i < n ==> Pos(i) in m.regs && m.regs[Pos(i)] == roots[i]
  }

  lemma LoadRootsRun(mem: Memory, arg: int, roots: seq<int>, m: Machine) returns (m': Machine)
    requires 0 < |roots| && RootsAt(mem, arg, roots) && Loaded(mem, arg, roots, 0, m)
    ensures Runs(LoadRoots(|roots|), m, m') && Logged(m, m', RootsLog(arg, |roots|))
    ensures Loaded(mem, arg, roots, |roots|, m')
  {
    m' := m;
    ExecNothing(m);
    for n := 0 to |roots|
      invariant Runs(LoadRoots(n), m, m') && Logged(m, m', RootsLog(arg, n)) && Loaded(mem, arg, roots, n, m')
    {
      var ldr := Ldr(Pos(n), ARG, 8 * n);
      var m2 := Effect(ldr, m').value;
      ExecThenOne(LoadRoots(n), ldr, m, m', m2);
      LoggedThen(m, m', m2, RootsLog(arg, n), [Read(arg + 8 * n)]);
      m' := m2;
    }
  }

  ghost predicate ValuesSet(c: Config, m: Machine, v: nat) {
    forall j :: 0 <= j < v ==> Val(c, j) in m.regs && m.regs[Val(c, j)] == 100 * j
  }

  lemma InitValsRun(c: Config, mem: Memory, arg: int, roots: seq<int>, m: Machine) returns (m': Machine)
    requires 0 < |roots| == c.chains && Loaded(mem, arg, roots, |roots|, m)
    ensures Runs(InitVals(c, ValCount(c)), m, m') && m'.log == m.log
    ensures Loaded(mem, arg, roots, |roots|, m') && ValuesSet(c, m', ValCount(c))
  {
    m' := m;
    ExecNothing(m);
    for v := 0 to ValCount(c)
      invariant Runs(InitVals(c, v), m, m') && m'.log == m.log
      invariant Loaded(mem, arg, roots, |roots|, m') && ValuesSet(c, m', v)
    {
      var mov := Mov(Val(c, v), 100 * v);
      var m2 := Effect(mov, m').value;
      ExecThenOne(InitVals(c, v), mov, m, m', m2);
      m' := m2;
    }
  }

  lemma PrologueRuns(c: Config, mem: Memory, fixed: set<int>, arg: int, roots: seq<int>, flag: bool)
    returns (m': Machine)
    requires 0 < |roots| == c.chains && RootsAt(mem, arg, roots)
    ensures Runs(Prologue(c), Call(arg, mem, flag), m') && m'.log == EntryLog(arg, c.chains)
    ensures InRound(c, mem, fixed, roots, m', 0, 0)
  {
    var m := Call(arg, mem, flag);
    var ldr := Ldr(HEAD, ARG, 0);
    assert Has(mem, arg + 8 * 0);
    var m1 := Effect(ldr, m).value;
    ExecSingle(ldr, m, m1);
    var m2 := LoadRootsRun(mem, arg, roots, m1);
    ExecThen([ldr], LoadRoots(c.chains), m, m1, m2);
    m' := InitValsRun(c, mem, arg, roots, m2);
    ExecThen([ldr] + LoadRoots(c.chains), InitVals(c, ValCount(c)), m, m2, m');
    AtStart(c, mem, fixed, arg, roots, m');
  }

  lemma AtStart(c: Config, mem: Memory, fixed: set<int>, arg: int, roots: seq<int>, m: Machine)
    requires 0 < |roots| == c.chains && Loaded(mem, arg, roots, |roots|, m) && ValuesSet(c, m, ValCount(c))
    ensures InRound(c, mem, fixed, roots, m, 0, 0)
  {
  }

  // ----- the loop

  lemma {:induction false} LoadRootsStraight(n: nat)
    ensures BranchFree(LoadRoots(n))
  {
    if n > 0 { LoadRootsStraight(n - 1); }
  }

  lemma {:induction false} InitValsStraight(c: Config, v: nat)
    ensures BranchFree(InitVals(c, v))
    decreases v
  {
    if v > 0 { InitValsStraight(c, v - 1); }
  }

  lemma {:induction false} SweepStraight(c: Config, i: nat, v: nat)
    ensures BranchFree(Sweep(c, i, v))
    decreases v
  {
    if v > 0 { SweepStraight(c, i, v - 1); }
  }

  lemma {:induction false} HopsStraight(c: Config, n: nat)
    ensures BranchFree(Hops(c, n))
    decreases n
  {
    if n > 0 {
      HopsStraight(c, n - 1);
      SweepStraight(c, n - 1, ValCount(c));
    }
  }

  lemma {:induction false} NopsStraight(n: nat)
    ensures BranchFree(Nops(n))
  {
    if n > 0 { NopsStraight(n - 1); }
  }

  lemma ProgramStraight(c: Config)
    ensures BranchFree(Prologue(c)) && BranchFree(Body(c))
  {
    LoadRootsStraight(c.chains);
    InitValsStraight(c, ValCount(c));
    HopsStraight(c, c.chains);
    NopsStraight(c.loopLength);
  }

  lemma RunPrologue(c: Config, m: Machine, m': Machine)
    requires Runs(Prologue(c), m, m')
    ensures Reaches(Program(c), State(0, m), |Prologue(c)|, State(|Prologue(c)|, m'))
  {
    var p := Prologue(c);
    ProgramStraight(c);
    assert Program(c)[0..0 + |p|] == p;
    assert ExecTo(p, m, |p|) == Some(m');
    RunStretch(Program(c), 0, p, m, m', |p|);
  }

  /** Small steps of one trip through the loop, the branch included. */
  lemma RunBody(c: Config, m: Machine, m': Machine)
    requires Runs(Body(c), m, m')
    ensures Reaches(Program(c), State(|Prologue(c)|, m), |Body(c)| + 1,
                    State(if m'.equal then |Program(c)| else |Prologue(c)|, m'))
  {
    var code, at, body := Program(c), |Prologue(c)|, Body(c);
    ProgramStraight(c);
    assert code[at..at + |body|] == body;
    assert ExecTo(body, m, |body|) == Some(m');
    RunStretch(code, at, body, m, m', |body|);
    assert code[at + |body|] == Bne(at);
  }

  /** Steps spent in k rounds. */
  function RoundSteps(c: Config, k: nat): nat {
    if k == 0 then 0 else RoundSteps(c, k - 1) + |Body(c)| + 1
  }

  /** State after t rounds of which none but perhaps the last brought chain 0 home. */
  ghost predicate AfterRounds(c: Config, mem: Memory, fixed: set<int>, roots: seq<int>, m0: Machine, t: nat,
                              home: bool, m: Machine) {
    && Reaches(Program(c), State(|Prologue(c)|, m0), RoundSteps(c, t),
               State(if home then |Program(c)| else |Prologue(c)|, m))
    && InRound(c, mem, fixed, roots, m, t, 0) && Logged(m0, m, PassLog(c, mem, roots, t))
  }

  lemma OneRound(c: Config, mem: Memory, nodes: set<int>, fixed: set<int>, roots: seq<int>, m0: Machine, t: nat,
                 m: Machine)
    returns (m': Machine)
    requires Sound(c, mem, nodes, fixed) && OnNodes(c, nodes, roots)
    requires AfterRounds(c, mem, fixed, roots, m0, t, false, m)
    ensures AfterRounds(c, mem, fixed, roots, m0, t + 1, At(mem, roots[0], t + 1) == roots[0], m')
  {
    m' := BodyRuns(c, mem, nodes, fixed, roots, m, t);
    RunBody(c, m, m');
    ReachesThen(Program(c), State(|Prologue(c)|, m0), RoundSteps(c, t), State(|Prologue(c)|, m), |Body(c)| + 1,
                State(if m'.equal then |Program(c)| else |Prologue(c)|, m'));
    LoggedThen(m0, m, m', PassLog(c, mem, roots, t), RoundLog(c, mem, roots, t, c.chains));
  }

  lemma LoopRuns(c: Config, mem: Memory, nodes: set<int>, fixed: set<int>, roots: seq<int>, m0: Machine, k: nat)
    returns (m: Machine)
    requires Sound(c, mem, nodes, fixed) && OnNodes(c, nodes, roots) && InRound(c, mem, fixed, roots, m0, 0, 0)
    requires HomeAfter(mem, roots[0], k)
    ensures AfterRounds(c, mem, fixed, roots, m0, k, true, m)
  {
    m := m0;
    assert Logged(m0, m0, []);
    for t := 0 to k - 1
      invariant AfterRounds(c, mem, fixed, roots, m0, t, false, m)
    {
      m := OneRound(c, mem, nodes, fixed, roots, m0, t, m);
    }
    m := OneRound(c, mem, nodes, fixed, roots, m0, k - 1, m);
  }

  // ----- memory is what the logged writes make of it

  lemma EffectReplays(i: Instr, m: Machine, m': Machine, mem: Memory)
    requires Effect(i, m) == Some(m') && m.mem == Replay(mem, m.log)
    ensures m'.mem == Replay(mem, m'.log)
  {
    if |m'.log| > |m.log| { ReplayOne(mem, m.log, m'.log[|m.log|]); }
  }

  lemma {:induction false} RunReplays(code: seq<Instr>, s: State, n: nat, mem: Memory)
    requires s.State? && s.m.mem == Replay(mem, s.m.log) && Run(code, s, n).State?
    ensures Run(code, s, n).m.mem == Replay(mem, Run(code, s, n).m.log)
    decreases n
  {
    if n > 0 {
      var t := Run(code, s, n - 1);
      assert t.State?;
      RunReplays(code, s, n - 1, mem);
      if t.pc < |code| { EffectReplays(code[t.pc], t.m, Effect(code[t.pc], t.m).value, mem); }
    }
  }

  lemma ReachReplays(code: seq<Instr>, s: State, n: nat, s': State, mem: Memory)
    requires s.State? && s'.State? && s.m.mem == Replay(mem, s.m.log) && Reaches(code, s, n, s')
    ensures s'.m.mem == Replay(mem, s'.m.log)
  {
    assert Run(code, s, n) == s';
    RunReplays(code, s, n, mem);
  }

  /** What one call of the emitted function does, from its entry to its return. */
  ghost predicate CallDone(c: Config, mem: Memory, fixed: set<int>, arg: int, roots: seq<int>, k: nat, m: Machine) {
    && m.log == EntryLog(arg, c.chains) + PassLog(c, mem, roots, k)
    && m.mem == Replay(mem, m.log)
    && SameFixed(mem, fixed, m.mem)
    && |roots| == c.chains
    && forall i :: 0 <= i < c.chains ==> Pos(i) in m.regs && m.regs[Pos(i)] == At(mem, roots[i], k)
  }

  /** The emitted list refines the specification: it never faults, returns after exactly k rounds, where
      k is the first time chain 0 is home, has made exactly the accesses of k lockstep rounds in order,
      and leaves every `fixed` word as it was. */
  lemma ChaseRefinesSpec(c: Config, mem: Memory, nodes: set<int>, fixed: set<int>, arg: int, roots: seq<int>, k: nat,
                         flag: bool)
    returns (m: Machine)
    requires Sound(c, mem, nodes, fixed) && OnNodes(c, nodes, roots) && RootsAt(mem, arg, roots)
    requires HomeAfter(mem, roots[0], k)
    ensures Reaches(Program(c), State(0, Call(arg, mem, flag)), |Prologue(c)| + RoundSteps(c, k),
      State(|Program(c)|, m))
    ensures CallDone(c, mem, fixed, arg, roots, k, m)
  {
    var start := State(0, Call(arg, mem, flag));
    var m0 := PrologueRuns(c, mem, fixed, arg, roots, flag);
    RunPrologue(c, Call(arg, mem, flag), m0);
    m := LoopRuns(c, mem, nodes, fixed, roots, m0, k);
    ReachesThen(Program(c), start, |Prologue(c)|, State(|Prologue(c)|, m0), RoundSteps(c, k), State(|Program(c)|, m));
    ReachReplays(Program(c), start, |Prologue(c)| + RoundSteps(c, k), State(|Program(c)|, m), mem);
  }
}
