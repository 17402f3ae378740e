/** The bytes of the bandwidth formula, as a sum over threads, calls and chains. */
module Bandwidth {
  import opened NumberTheory
  import opened Geometry
  import opened Ring
  import opened ChainInit
  import opened ByteMemory
  import opened ChaseCode
  import opened ChaseRefines
  import opened DataAccesses
  import opened ChaseOnRings
  import opened Touched
  import opened Accounting
  import P = Protocol
  import Windows
  import ProtocolTheorems
  import ProtocolOpening

  // ----- distinct lines of one chain

  lemma {:induction false} OneLineEach(g: Geometry, order: seq<nat>)
    requires WellFormed(g) && NoRepeat(order) && LineStarts(g, order)
    ensures |Swept(g, order, 1)| == |order|
  {
    var lines: seq<nat> := seq(|order|, k requires 0 <= k < |order| => order[k] / g.linksPerLine);
    forall a, b | 0 <= a < b < |lines| ensures lines[a] != lines[b] {
      if lines[a] == lines[b] {
        SameLine(order[a], order[b], g.linksPerLine);
        assert false;
      }
    }
    ElementsSize(lines);
    forall l ensures l in Swept(g, order, 1) <==> l in Elements(lines) {
      if l in Swept(g, order, 1) {
        var x, j :| x in order && j in Below(1) && l == x / g.linksPerLine + j;
        var k :| 0 <= k < |order| && order[k] == x;
        assert lines[k] == l;
      }
      if l in Elements(lines) {
        var k :| 0 <= k < |lines| && lines[k] == l;
        SweptHas(g, order, 1, order[k], 0);
      }
    }
    assert Swept(g, order, 1) == Elements(lines);
  }

  lemma SameLine(x: nat, y: nat, w: nat)
    requires w > 0 && x % w == 0 && y % w == 0 && x / w == y / w
    ensures x == y
  {
    assert x == (x / w) * w && y == (y / w) * w;
  }

  /** Which line group, counted from below, position i of a strided order stands for; and back. */
  function Group(g: Geometry, v: nat, order: seq<nat>, i: int): int
    requires Strided(g, v, order)
  {
    if order == ForwardOrder(g, v) then i else |order| - 1 - i
  }

  function LineAt(g: Geometry, order: seq<nat>, i: nat): int
    requires WellFormed(g) && i < |order|
  {
    order[i] / g.linksPerLine
  }

  lemma StridedLine(g: Geometry, v: nat, order: seq<nat>, i: nat)
    requires Strided(g, v, order) && i < |order|
    ensures 0 <= Group(g, v, order, i) < |order| == CeilDiv(g.linesPerChain, v)
    ensures Group(g, v, order, Group(g, v, order, i)) == i
    ensures LineAt(g, order, i) == Group(g, v, order, i) * v
  {
    StrideLine(g, v, Group(g, v, order, i));
  }

  lemma DividedLine(lines: nat, v: nat, l: nat) returns (k: nat, j: nat)
    requires v > 0 && lines % v == 0 && l < lines
    ensures k < CeilDiv(lines, v) && j < v && k * v + j == l
  {
    var q := lines / v;
    assert lines == q * v;
    CeilDivExact(q, v);
    k, j := DivParts(l, v);
    if k >= q { MulMono(q, k, v); }
  }

  lemma DivParts(l: nat, v: nat) returns (k: nat, j: nat)
    requires v > 0
    ensures j < v && k * v + j == l
  {
    k, j := l / v, l % v;
  }

  lemma OnePair(k: int, j: int, k': int, j': int, v: nat)
    requires 0 <= j < v && 0 <= j' < v && k * v + j == k' * v + j'
    ensures k == k' && j == j'
  {
    DivModUnique(k, v, j);
    DivModUnique(k', v, j');
  }

  /** When the stride divides the chain, every line is in exactly one sweep, once. */
  lemma EachLineOnce(g: Geometry, v: nat, order: seq<nat>, l: nat) returns (i: nat, j: nat)
    requires Strided(g, v, order) && l < g.linesPerChain
    ensures i < |order| && j < v && LineAt(g, order, i) + j == l
    ensures forall i': nat :: i' < |order| && LineAt(g, order, i') <= l < LineAt(g, order, i') + v ==> i' == i
  {
    var k;
    k, j := DividedLine(g.linesPerChain, v, l);
    i := PlaceOf(g, v, order, k);
    forall i': nat | i' < |order| && LineAt(g, order, i') <= l < LineAt(g, order, i') + v ensures i' == i {
      StridedLine(g, v, order, i');
      OnePair(k, j, Group(g, v, order, i'), l - LineAt(g, order, i'), v);
    }
  }

  lemma PlaceOf(g: Geometry, v: nat, order: seq<nat>, k: nat) returns (i: nat)
    requires Strided(g, v, order) && k < CeilDiv(g.linesPerChain, v)
    ensures i < |order| && Group(g, v, order, i) == k && LineAt(g, order, i) == k * v
  {
    i := Group(g, v, order, k);
    StridedLine(g, v, order, i);
  }

  lemma SweptLine(g: Geometry, v: nat, order: seq<nat>, l: int)
    requires Strided(g, v, order) && l in Swept(g, order, v)
    ensures 0 <= l < g.linesPerChain
  {
    var x, j :| x in order && j in Below(v) && l == x / g.linksPerLine + j;
    var i: nat :| i < |order| && order[i] == x;
    StridedLine(g, v, order, i);
    DividedStride(g.linesPerChain, v, Group(g, v, order, i), j);
    MulMono(0, Group(g, v, order, i), v);
  }

  lemma WholeChainSwept(g: Geometry, v: nat, order: seq<nat>)
    requires Strided(g, v, order)
    ensures Swept(g, order, v) == Below(g.linesPerChain) && |order| * v == g.linesPerChain
  {
    StrideCount(g, v);
    DividedStride(g.linesPerChain, v, 0, 0);
    forall l | l in Swept(g, order, v) ensures l in Below(g.linesPerChain) { SweptLine(g, v, order, l); }
    forall l: nat | l < g.linesPerChain ensures l in Swept(g, order, v) {
      var i, j := EachLineOnce(g, v, order, l);
      SweptHas(g, order, v, order[i], j);
    }
  }

  /** Distinct lines touched per pass: hops times lines per hop. */
  lemma CoveredCount(c: Config, g: Geometry, order: seq<nat>)
    requires WellFormed(g) && Covered(c, g, order)
    ensures |Swept(g, order, ValCount(c))| == |order| * ValCount(c)
  {
    var v := ValCount(c);
    CoveredRing(c, g, order);
    if v == 1 {
      OneLineEach(g, order);
    } else {
      WholeChainSwept(g, v, order);
      BelowSize(g.linesPerChain);
    }
  }

  // ----- one call

  /** The memory of a thread when an experiment starts. */
  datatype ThreadMemory = ThreadMemory(chains: seq<Chain>, arg: int, mem: Memory)

  /** Chains with their own memory, laid out as rings of `ops` hops that cover their lines. */
  ghost predicate Prepared(c: Config, g: Geometry, tm: ThreadMemory, ops: nat) {
    && WholeLinks(g) && c.bytesPerLine == g.bytesPerLine && |tm.chains| == c.chains > 0 && ValCount(c) >= 1
    && Apart(g, tm.chains, tm.arg) && AllLaidOut(g, tm.mem, tm.chains)
    && RootsAt(tm.mem, tm.arg, Roots(tm.chains))
    && forall i :: 0 <= i < |tm.chains| ==> Covered(c, g, tm.chains[i].order) && |tm.chains[i].order| == ops
  }

  lemma PreparedSettled(c: Config, g: Geometry, tm: ThreadMemory, ops: nat)
    requires Prepared(c, g, tm, ops)
    ensures AllSettled(c, g, tm.chains) && Fits(c, g, tm.chains) && RingLength(tm.chains[0].order) == ops
  {
    forall i | 0 <= i < |tm.chains| ensures Settled(c, g, tm.chains[i]) && Spared(c, tm.chains[i].order) {
      CoveredRing(c, g, tm.chains[i].order);
      CoveredFits(c, g, tm.chains[i].order);
    }
    CoveredRing(c, g, tm.chains[0].order);
    FullRingIff(tm.chains[0].order);
  }

  function Sum(xs: seq<nat>): nat { if xs == [] then 0 else Sum(xs[..|xs| - 1]) + xs[|xs| - 1] }

  lemma {:induction false} SumEqual(xs: seq<nat>, x: nat)
    requires forall i :: 0 <= i < |xs| ==> xs[i] == x
    ensures Sum(xs) == |xs| * x
  {
    if xs != [] {
      SumEqual(xs[..|xs| - 1], x);
      assert |xs| * x == (|xs| - 1) * x + x;
    }
  }

  /** What the init functions leave is prepared: each chain's memory holds the closed ring of its order. */
  lemma PreparedByInit(c: Config, g: Geometry, tm: ThreadMemory, links: seq<seq<Link>>, ops: nat)
    requires WholeLinks(g) && c.bytesPerLine == g.bytesPerLine && ValCount(c) >= 1
    requires |tm.chains| == |links| == c.chains > 0 && Apart(g, tm.chains, tm.arg)
    requires forall i :: 0 <= i < c.chains ==>
      && tm.chains[i].base % 16 == 0 && Covered(c, g, tm.chains[i].order) && |tm.chains[i].order| == ops
    requires forall i :: 0 <= i < c.chains ==> HoldsRing(g, tm.mem, tm.chains[i], links[i])
    requires forall i :: 0 <= i < c.chains ==> HoldsRoot(tm.mem, tm.arg + 8 * i, tm.chains[i])
    ensures Prepared(c, g, tm, ops)
  {
    forall i | 0 <= i < c.chains ensures LaidOut(g, tm.mem, tm.chains[i]) {
      CoveredRing(c, g, tm.chains[i].order);
      InitLaysOut(g, tm.mem, tm.chains[i], links[i]);
    }
    var roots := Roots(tm.chains);
    forall i | 0 <= i < |roots| ensures Has(tm.mem, tm.arg + 8 * i) && Word(tm.mem, tm.arg + 8 * i) == roots[i] {
      assert HoldsRoot(tm.mem, tm.arg + 8 * i, tm.chains[i]);
    }
  }

  /** The memory of a chain after its init function, which found the links as given. */
  ghost predicate HoldsRing(g: Geometry, mem: Memory, ch: Chain, links: seq<Link>) {
    && |links| == g.linksPerChain && ch.order != [] && InMemory(ch.order, |links|)
    && Image(g, mem, ch, Closed(links, ch.order))
  }

  /** The word at a is the root that the init function returned. */
  ghost predicate HoldsRoot(mem: Memory, a: int, ch: Chain) {
    ch.order != [] && Has(mem, a) && Word(mem, a) == Root(ch)
  }

  /** Any number of calls, of calibration and of earlier experiments, leave the thread prepared. */
  lemma PreparedAfterCalls(c: Config, g: Geometry, tm: ThreadMemory, ops: nat, n: nat) returns (ms: seq<Machine>)
    requires Prepared(c, g, tm, ops)
    ensures |ms| == n && SuccessiveCalls(c, tm.arg, tm.mem, ops, ms)
    ensures Prepared(c, g, tm.(mem := Before(tm.mem, ms, n)), ops)
  {
    PreparedSettled(c, g, tm, ops);
    ms := BenchRepeats(c, g, tm.chains, tm.arg, tm.mem, n);
    SameRingsLaidOut(c, g, tm.chains, tm.arg, tm.mem, Before(tm.mem, ms, n));
  }

  /** Distinct lines that a call touches, summed over the chains. */
  ghost function CallCount(g: Geometry, chains: seq<Chain>, log: seq<Event>): nat
    requires g.bytesPerLine > 0
  {
    Sum(seq(|chains|, i requires 0 <= i < |chains| => |Lines(g, chains[i], log)|))
  }

  lemma CallSum(g: Geometry, chains: seq<Chain>, log: seq<Event>, lines: nat)
    requires g.bytesPerLine > 0 && forall i :: 0 <= i < |chains| ==> |Lines(g, chains[i], log)| == lines
    ensures CallCount(g, chains, log) == |chains| * lines
  {
    SumEqual(seq(|chains|, i requires 0 <= i < |chains| => |Lines(g, chains[i], log)|), lines);
  }

  /** The same, summed over the calls of a thread. */
  ghost function CallsCount(g: Geometry, chains: seq<Chain>, ms: seq<Machine>): nat
    requires g.bytesPerLine > 0
  {
    Sum(seq(|ms|, k requires 0 <= k < |ms| => CallCount(g, chains, ms[k].log)))
  }

  lemma CallsSum(g: Geometry, chains: seq<Chain>, ms: seq<Machine>, log: seq<Event>, lines: nat)
    requires g.bytesPerLine > 0 && CallCount(g, chains, log) == lines && forall k :: 0 <= k < |ms| ==> ms[k].log == log
    ensures CallsCount(g, chains, ms) == |ms| * lines
  {
    SumEqual(seq(|ms|, k requires 0 <= k < |ms| => CallCount(g, chains, ms[k].log)), lines);
  }

  /** And over all threads. */
  ghost function TotalLines(g: Geometry, tms: seq<ThreadMemory>, runs: seq<seq<Machine>>): nat
    requires g.bytesPerLine > 0 && |tms| == |runs|
  {
    Sum(seq(|tms|, t requires 0 <= t < |tms| => CallsCount(g, tms[t].chains, runs[t])))
  }

  lemma CallTouches(c: Config, g: Geometry, tm: ThreadMemory, ops: nat, m: Machine, lines: int)
    requires Prepared(c, g, tm, ops)
    requires CallDone(c, tm.mem, Protected(c, g, tm.chains, tm.arg), tm.arg, Roots(tm.chains), ops, m)
    requires lines == ops * ValCount(c)
    ensures g.bytesPerLine > 0 && CallCount(g, tm.chains, m.log) == c.chains * lines
  {
    PreparedSettled(c, g, tm, ops);
    forall i | 0 <= i < |tm.chains| ensures g.bytesPerLine > 0 && |Lines(g, tm.chains[i], m.log)| == lines {
      CoveredRing(c, g, tm.chains[i].order);
      CallLines(c, g, tm.chains, tm.arg, tm.mem, m, i);
      CoveredCount(c, g, tm.chains[i].order);
    }
    CallSum(g, tm.chains, m.log, lines);
  }

  /** One load_all or store_all pass over a strided ring whose stride divides the chain: of the accesses in
      the log of the call, exactly one is to data of line l, for every line of every chain. */
  lemma EachLineHitOnce(c: Config, g: Geometry, tm: ThreadMemory, ops: nat, m: Machine, i: nat, l: nat)
    requires Prepared(c, g, tm, ops) && i < c.chains && l < g.linesPerChain
    requires CallDone(c, tm.mem, Protected(c, g, tm.chains, tm.arg), tm.arg, Roots(tm.chains), ops, m)
    requires Strided(g, DataCount(c), tm.chains[i].order)
    ensures g.bytesPerLine > 0 && Hits(g, tm.chains[i], m.log, l) == 1
  {
    var order := tm.chains[i].order;
    PreparedSettled(c, g, tm, ops);
    StridedRing(g, DataCount(c), order);
    var q, j := EachLineOnce(g, DataCount(c), order, l);
    forall k: nat | k < |order|
      ensures order[k] / g.linksPerLine <= l < order[k] / g.linksPerLine + DataCount(c) <==> k == q
    {
      assert LineAt(g, order, k) == order[k] / g.linksPerLine;
    }
    CallHitsOnce(c, g, tm.chains, tm.arg, tm.mem, m, i, l, q);
  }

  // ----- all calls of all threads

  /** The machines of a thread's successive calls, and the lines they touch. */
  ghost predicate ThreadRan(c: Config, g: Geometry, tm: ThreadMemory, ops: nat, iterations: nat, lines: int,
                            ms: seq<Machine>)
    requires g.bytesPerLine > 0
  {
    |ms| == iterations && SuccessiveCalls(c, tm.arg, tm.mem, ops, ms) && CallsCount(g, tm.chains, ms) == lines
  }

  lemma TotalSum(c: Config, g: Geometry, tms: seq<ThreadMemory>, ops: nat, iterations: nat, lines: nat,
                 runs: seq<seq<Machine>>)
    requires g.bytesPerLine > 0 && |runs| == |tms|
    requires forall t :: 0 <= t < |tms| ==> ThreadRan(c, g, tms[t], ops, iterations, lines, runs[t])
    ensures TotalLines(g, tms, runs) == |tms| * lines
  {
    SumEqual(seq(|tms|, t requires 0 <= t < |tms| => CallsCount(g, tms[t].chains, runs[t])), lines);
  }

  lemma ThreadTouches(c: Config, g: Geometry, tm: ThreadMemory, ops: nat, iterations: nat, lines: int)
    returns (ms: seq<Machine>)
    requires Prepared(c, g, tm, ops) && lines == iterations * (c.chains * (ops * ValCount(c)))
    ensures g.bytesPerLine > 0 && ThreadRan(c, g, tm, ops, iterations, lines, ms)
  {
    PreparedSettled(c, g, tm, ops);
    ms := BenchRepeats(c, g, tm.chains, tm.arg, tm.mem, iterations);
    var m := BenchReturns(c, g, tm.chains, tm.arg, tm.mem, false, ops);
    CallTouches(c, g, tm, ops, m, ops * ValCount(c));
    CallsSum(g, tm.chains, ms, m.log, c.chains * (ops * ValCount(c)));
  }

  lemma {:induction false} AllThreadsTouch(c: Config, g: Geometry, tms: seq<ThreadMemory>, ops: nat, iterations: nat,
                                           lines: int)
    returns (runs: seq<seq<Machine>>)
    requires g.bytesPerLine > 0 && forall t :: 0 <= t < |tms| ==> Prepared(c, g, tms[t], ops)
    requires lines == iterations * (c.chains * (ops * ValCount(c)))
    ensures |runs| == |tms| && forall t :: 0 <= t < |tms| ==> ThreadRan(c, g, tms[t], ops, iterations, lines, runs[t])
    decreases |tms|
  {
    runs := [];
    if tms != [] {
      var n := |tms| - 1;
      var before := AllThreadsTouch(c, g, tms[..n], ops, iterations, lines);
      var ms := ThreadTouches(c, g, tms[n], ops, iterations, lines);
      runs := before + [ms];
    }
  }

  /** The formula of the bandwidth column, in bytes. */
  function FormulaBytes(c: Config, g: Geometry, ops: nat, iterations: int, threads: nat): int {
    ops * iterations * c.chains * threads * g.bytesPerLine * ValCount(c)
  }

  lemma Rearrange(ops: int, iterations: int, chains: int, threads: int, line: int, v: int)
    ensures ops * iterations * chains * threads * line * v == threads * (iterations * (chains * (ops * v))) * line
  {
  }

  /** At the end of a run: in every experiment each thread makes its calls, and the distinct lines touched,
      summed over all threads, calls and chains, times the line size, are the bytes of the formula. */
  lemma BandwidthBytes(pc: P.Config, s: P.State, e: nat, c: Config, g: Geometry, tms: seq<ThreadMemory>, ops: nat)
    returns (runs: seq<seq<Machine>>)
    requires P.Reachable(pc, s) && ProtocolOpening.Agrees(pc) && |s.threads| == pc.threads && s.threads[0].pc.Done?
    requires e < pc.experiments && |tms| == pc.threads && forall t :: 0 <= t < |tms| ==> Prepared(c, g, tms[t], ops)
    ensures |runs| == |tms| && g.bytesPerLine > 0
    ensures forall t :: 0 <= t < |tms| ==>
      |runs[t]| == Windows.Calls(s.sh.log, P.ExpW(e), t) && SuccessiveCalls(c, tms[t].arg, tms[t].mem, ops, runs[t])
    ensures TotalLines(g, tms, runs) * g.bytesPerLine == FormulaBytes(c, g, ops, s.sh.iterations, pc.threads)
  {
    ProtocolTheorems.Finished(pc, s);
    var lines := s.sh.iterations * (c.chains * (ops * ValCount(c)));
    assert Prepared(c, g, tms[0], ops);
    runs := AllThreadsTouch(c, g, tms, ops, s.sh.iterations, lines);
    assert ThreadRan(c, g, tms[0], ops, s.sh.iterations, lines, runs[0]);
    TotalSum(c, g, tms, ops, s.sh.iterations, lines, runs);
    Rearrange(ops, s.sh.iterations, c.chains, pc.threads, g.bytesPerLine, ValCount(c));
  }
}
