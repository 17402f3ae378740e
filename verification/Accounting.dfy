/** The lines that a call touches, chain by chain, and when these are all that the formula counts. */
module Accounting {
  import opened NumberTheory
  import opened Geometry
  import opened Ring
  import opened ChainInit
  import opened ByteMemory
  import opened ChaseCode
  import opened ChaseRefines
  import opened DataAccesses
  import opened ChaseOnRings
  import opened OwnEvents
  import opened Touched

  ghost predicate AllSettled(c: Config, g: Geometry, chains: seq<Chain>) {
    |chains| == c.chains > 0 && forall i :: 0 <= i < |chains| ==> Settled(c, g, chains[i])
  }

  /** The v lines from each line of the ring on. */
  ghost function Swept(g: Geometry, order: seq<nat>, v: nat): set<int>
    requires WellFormed(g)
  {
    set x, j | x in order && j in Below(v) :: x / g.linksPerLine + j
  }

  // ----- a pass around a ring without repeats

  lemma SweptHas(g: Geometry, order: seq<nat>, v: nat, x: nat, j: nat)
    requires WellFormed(g) && x in order && j < v
    ensures x / g.linksPerLine + j in Swept(g, order, v)
  {
    assert j in Below(v);
  }

  lemma HopSwept(c: Config, g: Geometry, order: seq<nat>, x: nat, y: nat)
    requires WellFormed(g) && x in order && y in order && ValCount(c) >= 1
    ensures HopLines(c, g, x, y) <= Swept(g, order, ValCount(c))
  {
    SweptHas(g, order, ValCount(c), x, 0);
    forall l | l in From(y / g.linksPerLine, DataCount(c)) ensures l in Swept(g, order, ValCount(c)) {
      FromIff(y / g.linksPerLine, DataCount(c), l);
      SweptHas(g, order, ValCount(c), y, l - y / g.linksPerLine);
    }
  }

  lemma PassedSwept(c: Config, g: Geometry, ch: Chain, k: nat)
    requires WellFormed(g) && ch.order != [] && ValCount(c) >= 1
    ensures Passed(c, g, ch, k) <= Swept(g, ch.order, ValCount(c))
  {
    var sets, all := HopSets(c, g, ch, k), Swept(g, ch.order, ValCount(c));
    forall t | 0 <= t < k ensures sets[t] <= all { HopSwept(c, g, ch.order, Stand(ch, t), Stand(ch, t + 1)); }
    UnionWithin(sets, k, all);
  }

  lemma HopLinesHave(c: Config, g: Geometry, x: nat, y: nat, j: nat)
    requires WellFormed(g) && j < ValCount(c)
    ensures x / g.linksPerLine in HopLines(c, g, x, y)
    ensures !c.op.NoAccess? ==> y / g.linksPerLine + j in HopLines(c, g, x, y)
  {
    FromIff(y / g.linksPerLine, DataCount(c), y / g.linksPerLine + j);
  }

  /** The links between which hop t of a ring without repeats goes. */
  lemma HopEnds(ch: Chain, t: nat) returns (x: nat, y: nat)
    requires NoRepeat(ch.order) && t < |ch.order|
    ensures x == Stand(ch, t) == ch.order[t]
    ensures y == Stand(ch, t + 1) == ch.order[if t + 1 < |ch.order| then t + 1 else 0]
  {
    WalkVisits(ch.order, 0, t);
    WalkVisits(ch.order, 0, t + 1);
    x, y := Stand(ch, t), Stand(ch, t + 1);
  }

  lemma LinePassed(c: Config, g: Geometry, ch: Chain, q: nat, j: nat, l: int)
    requires WellFormed(g) && NoRepeat(ch.order) && q < |ch.order| && j < ValCount(c)
    requires l == ch.order[q] / g.linksPerLine + j
    ensures l in Passed(c, g, ch, |ch.order|)
  {
    var n := |ch.order|;
    var t := if j == 0 then q else if q > 0 then q - 1 else n - 1;
    var x, y := HopEnds(ch, t);
    HopLinesHave(c, g, x, y, j);
    assert l in HopSets(c, g, ch, n)[t];
    UnionHas(HopSets(c, g, ch, n), n, t);
  }

  lemma SweptPassed(c: Config, g: Geometry, ch: Chain, l: int)
    requires WellFormed(g) && ch.order != [] && NoRepeat(ch.order) && l in Swept(g, ch.order, ValCount(c))
    ensures l in Passed(c, g, ch, |ch.order|)
  {
    var x, j :| x in ch.order && j in Below(ValCount(c)) && l == x / g.linksPerLine + j;
    var q :| 0 <= q < |ch.order| && ch.order[q] == x;
    LinePassed(c, g, ch, q, j, l);
  }

  /** The log of a call on a ring without repeats, as its chain sees it. */
  lemma CallWalk(c: Config, g: Geometry, chains: seq<Chain>, arg: int, mem: Memory, m: Machine, i: nat)
    requires AllSettled(c, g, chains) && Apart(g, chains, arg) && AllLaidOut(g, mem, chains) && i < |chains|
    requires CallDone(c, mem, Protected(c, g, chains, arg), arg, Roots(chains), |chains[i].order|, m)
    ensures g.bytesPerLine > 0 && Own(g, chains[i], m.log) == Walked(c, chains[i], |chains[i].order|)
  {
    LineOfAccess(g, chains[i], 0, 0, 0);
    CallOwn(c, g, chains, arg, mem, |chains[i].order|, m, i);
  }

  /** One call on rings without repeats touches exactly the lines from each ring line on. */
  lemma CallLines(c: Config, g: Geometry, chains: seq<Chain>, arg: int, mem: Memory, m: Machine, i: nat)
    requires AllSettled(c, g, chains) && Apart(g, chains, arg) && AllLaidOut(g, mem, chains) && i < |chains|
    requires ValCount(c) >= 1 && NoRepeat(chains[i].order)
    requires CallDone(c, mem, Protected(c, g, chains, arg), arg, Roots(chains), |chains[i].order|, m)
    ensures g.bytesPerLine > 0 && Lines(g, chains[i], m.log) == Swept(g, chains[i].order, ValCount(c))
  {
    var ch, k := chains[i], |chains[i].order|;
    CallWalk(c, g, chains, arg, mem, m, i);
    WalkedLines(c, g, ch, k);
    PassedSwept(c, g, ch, k);
    forall l | l in Swept(g, ch.order, ValCount(c)) ensures l in Passed(c, g, ch, k) { SweptPassed(c, g, ch, l); }
  }

  /** Position i is the only one of the order whose sweep includes line l. */
  predicate OnlySweep(c: Config, g: Geometry, order: seq<nat>, l: int, i: nat)
    requires WellFormed(g)
  {
    && i < |order|
    && forall k :: 0 <= k < |order| ==>
         (order[k] / g.linksPerLine <= l < order[k] / g.linksPerLine + DataCount(c) <==> k == i)
  }

  /** The hop that lands on position q of a ring without repeats. */
  lemma LandsOnce(c: Config, g: Geometry, ch: Chain, l: int, q: nat, t: nat)
    requires WellFormed(g) && NoRepeat(ch.order) && t < |ch.order| && OnlySweep(c, g, ch.order, l, q)
    ensures Lands(c, g, ch, l, t) <==> t == if q > 0 then q - 1 else |ch.order| - 1
  {
    WalkVisits(ch.order, 0, t + 1);
    var k := if t + 1 < |ch.order| then t + 1 else 0;
    assert Stand(ch, t + 1) == ch.order[k];
  }

  /** A call accesses the data of a line that one sweep includes exactly once. */
  lemma CallHitsOnce(c: Config, g: Geometry, chains: seq<Chain>, arg: int, mem: Memory, m: Machine, i: nat, l: int,
                     q: nat)
    requires AllSettled(c, g, chains) && Apart(g, chains, arg) && AllLaidOut(g, mem, chains) && i < |chains|
    requires NoRepeat(chains[i].order) && OnlySweep(c, g, chains[i].order, l, q)
    requires CallDone(c, mem, Protected(c, g, chains, arg), arg, Roots(chains), |chains[i].order|, m)
    ensures g.bytesPerLine > 0 && Hits(g, chains[i], m.log, l) == 1
  {
    var ch, k := chains[i], |chains[i].order|;
    CallWalk(c, g, chains, arg, mem, m, i);
    var T := if q > 0 then q - 1 else k - 1;
    forall t | 0 <= t < k ensures Lands(c, g, ch, l, t) <==> t == T { LandsOnce(c, g, ch, l, q, t); }
    WalkedHits(c, g, ch, k, l, T);
  }

  // ----- how many lines

  predicate Strided(g: Geometry, v: nat, order: seq<nat>) {
    WellFormed(g) && v >= 1 && g.linesPerChain % v == 0 && (order == ForwardOrder(g, v) || order == ReverseOrder(g, v))
  }

  /** Either one line per hop on a ring without repeats, or a strided ring whose stride divides the chain
      and sweeps of as many lines. */
  ghost predicate Covered(c: Config, g: Geometry, order: seq<nat>)
    requires WellFormed(g)
  {
    var v := ValCount(c);
    || (v == 1 && order != [] && NoRepeat(order) && LineStarts(g, order) && InMemory(order, g.linksPerChain))
    || Strided(g, v, order)
  }

  lemma StrideLine(g: Geometry, v: nat, k: nat)
    requires WellFormed(g)
    ensures StrideSlot(g, v, k) / g.linksPerLine == k * v && StrideSlot(g, v, k) % g.linksPerLine == 0
  {
    DivModUnique(k * v, g.linksPerLine, 0);
  }

  lemma StridedRing(g: Geometry, v: nat, order: seq<nat>)
    requires WellFormed(g) && v >= 1 && (order == ForwardOrder(g, v) || order == ReverseOrder(g, v))
    ensures order != [] && NoRepeat(order) && LineStarts(g, order) && InMemory(order, g.linksPerChain)
  {
    var fwd := ForwardOrder(g, v);
    ForwardNoRepeat(g, v);
    ReversedElements(fwd);
    forall k: nat | k < |fwd| ensures fwd[k] % g.linksPerLine == 0 { StrideLine(g, v, k); }
  }

  lemma CoveredRing(c: Config, g: Geometry, order: seq<nat>)
    requires WellFormed(g) && Covered(c, g, order)
    ensures order != [] && NoRepeat(order) && LineStarts(g, order) && InMemory(order, g.linksPerChain)
  {
    if Strided(g, ValCount(c), order) {
      StridedRing(g, ValCount(c), order);
    }
  }

  /** Covered rings keep their accesses inside and are spared by stores. */
  lemma CoveredFits(c: Config, g: Geometry, order: seq<nat>)
    requires WholeLinks(g) && c.bytesPerLine == g.bytesPerLine && Covered(c, g, order)
    ensures StaysInside(c, g, order) && Spared(c, order)
  {
    CoveredRing(c, g, order);
    if DataCount(c) <= 1 {
      OneAccessFits(c, g, order);
    } else {
      StridedStaysInsideIff(c, g, ValCount(c), order);
      StridedSpares(c, g, ValCount(c), order);
    }
  }

  /** What `random_mem_init` builds is covered one line per hop when no drawn factor divides its range. */
  lemma RandomCovered(c: Config, g: Geometry, plan: Plan)
    requires PlanFits(g, plan) && PrimeFactors(plan) && FactorsCoprime(g, plan) && ValCount(c) == 1
    ensures Covered(c, g, RandomOrder(g, plan)) && |RandomOrder(g, plan)| == g.linesPerChain
  {
    var order, pages, lines := RandomOrder(g, plan), PageOrder(g, plan), LineOrders(g, plan);
    RandomNoRepeatIff(g, plan);
    PlanIsTour(g, plan);
    forall k | 0 <= k < |order| ensures order[k] % g.linksPerLine == 0 {
      var i, j := TourElement(g, pages, lines, |pages|, order[k]);
      SlotInChain(g, pages[i], lines[i][j]);
    }
  }

  /** So is what the strided functions build, and for the "all" operations when the stride divides the chain. */
  lemma StridedCovered(c: Config, g: Geometry, stride: nat, order: seq<nat>)
    requires WellFormed(g) && stride >= 1 && (order == ForwardOrder(g, stride) || order == ReverseOrder(g, stride))
    requires ValCount(c) == 1 || (ValCount(c) == stride && g.linesPerChain % stride == 0)
    ensures Covered(c, g, order) && |order| == CeilDiv(g.linesPerChain, stride)
  {
    StridedRing(g, stride, order);
  }
}
