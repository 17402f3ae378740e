/** The lines of a chain that its hops touch, and how often their data is accessed. */
module Touched {
  import opened NumberTheory
  import opened Geometry
  import opened ChaseCode
  import opened ChaseRefines
  import opened DataAccesses
  import opened ChaseOnRings
  import opened OwnEvents

  /** Line of the chain that holds an address. */
  function LineOf(g: Geometry, ch: Chain, a: int): int
    requires g.bytesPerLine > 0
  {
    (a - ch.base) / g.bytesPerLine
  }

  ghost function LinesIn(g: Geometry, ch: Chain, log: seq<Event>): set<int>
    requires g.bytesPerLine > 0
  {
    if log == [] then {} else LinesIn(g, ch, log[..|log| - 1]) + {LineOf(g, ch, Addr(log[|log| - 1]))}
  }

  /** Lines of the chain that a log touches. */
  ghost function Lines(g: Geometry, ch: Chain, log: seq<Event>): set<int>
    requires g.bytesPerLine > 0
  {
    LinesIn(g, ch, Own(g, ch, log))
  }

  /** The address of a datum, not of a `next` field. */
  predicate IsDatum(ch: Chain, a: int) { (a - ch.base) % 16 == 8 }

  function HitsIn(g: Geometry, ch: Chain, log: seq<Event>, l: int): nat
    requires g.bytesPerLine > 0
  {
    if log == [] then 0
    else
      var n := |log| - 1;
      HitsIn(g, ch, log[..n], l) + (if Hit(g, ch, log[n], l) then 1 else 0)
  }

  predicate Hit(g: Geometry, ch: Chain, e: Event, l: int)
    requires g.bytesPerLine > 0
  {
    IsDatum(ch, Addr(e)) && LineOf(g, ch, Addr(e)) == l
  }

  /** Data accesses of a log on line l of the chain. */
  ghost function Hits(g: Geometry, ch: Chain, log: seq<Event>, l: int): nat
    requires g.bytesPerLine > 0
  {
    HitsIn(g, ch, Own(g, ch, log), l)
  }

  lemma {:induction false} LinesHave(g: Geometry, ch: Chain, log: seq<Event>, e: Event)
    requires g.bytesPerLine > 0 && e in log
    ensures LineOf(g, ch, Addr(e)) in LinesIn(g, ch, log)
  {
    var n := |log| - 1;
    if e != log[n] { LinesHave(g, ch, log[..n], e); }
  }

  lemma {:induction false} LineSource(g: Geometry, ch: Chain, log: seq<Event>, l: int) returns (e: Event)
    requires g.bytesPerLine > 0 && l in LinesIn(g, ch, log)
    ensures e in log && LineOf(g, ch, Addr(e)) == l
  {
    var n := |log| - 1;
    if l in LinesIn(g, ch, log[..n]) { e := LineSource(g, ch, log[..n], l); } else { e := log[n]; }
  }

  lemma {:induction false} LinesAdd(g: Geometry, ch: Chain, a: seq<Event>, b: seq<Event>)
    requires g.bytesPerLine > 0
    ensures LinesIn(g, ch, a + b) == LinesIn(g, ch, a) + LinesIn(g, ch, b)
    decreases |b|
  {
    if b == [] {
      assert a + b == a;
    } else {
      var n := |b| - 1;
      assert (a + b)[..|a + b| - 1] == a + b[..n];
      LinesAdd(g, ch, a, b[..n]);
    }
  }

  lemma LinesSum(g: Geometry, ch: Chain, a: seq<Event>, b: seq<Event>, x: set<int>, y: set<int>)
    requires g.bytesPerLine > 0 && LinesIn(g, ch, a) == x && LinesIn(g, ch, b) == y
    ensures LinesIn(g, ch, a + b) == x + y
  {
    LinesAdd(g, ch, a, b);
  }

  lemma {:induction false} HitsAdd(g: Geometry, ch: Chain, a: seq<Event>, b: seq<Event>, l: int)
    requires g.bytesPerLine > 0
    ensures HitsIn(g, ch, a + b, l) == HitsIn(g, ch, a, l) + HitsIn(g, ch, b, l)
    decreases |b|
  {
    if b == [] {
      assert a + b == a;
    } else {
      var n := |b| - 1;
      assert (a + b)[..|a + b| - 1] == a + b[..n];
      HitsAdd(g, ch, a, b[..n], l);
    }
  }

  // ----- lines of whole links

  predicate WholeLinks(g: Geometry) { WellFormed(g) && g.bytesPerLine == LINK_BYTES * g.linksPerLine }

  /** Every slot of the order is the first link of a line. */
  predicate LineStarts(g: Geometry, order: seq<nat>)
    requires WellFormed(g)
  {
    forall k :: 0 <= k < |order| ==> order[k] % g.linksPerLine == 0
  }

  lemma LineOfAccess(g: Geometry, ch: Chain, x: nat, j: nat, r: nat)
    requires WholeLinks(g) && x % g.linksPerLine == 0 && r < 16
    ensures g.bytesPerLine > 0 && LineOf(g, ch, LinkAddr(ch, x) + j * g.bytesPerLine + r) == x / g.linksPerLine + j
  {
    var l, w := x / g.linksPerLine, g.linksPerLine;
    assert x == l * w;
    assert g.bytesPerLine == 16 * w >= 16;
    assert 16 * x + j * (16 * w) + r == (l + j) * (16 * w) + r by { Distribute(l, j, w); }
    DivModUnique(l + j, 16 * w, r);
  }

  lemma Distribute(l: int, j: int, w: int)
    ensures 16 * (l * w) + j * (16 * w) == (l + j) * (16 * w)
  {
  }

  /** Lines of whole links, and a ring that stays inside them. */
  ghost predicate Settled(c: Config, g: Geometry, ch: Chain) {
    && WholeLinks(g) && c.bytesPerLine == g.bytesPerLine
    && IsChain(g, ch) && LineStarts(g, ch.order) && StaysInside(c, g, ch.order)
  }

  lemma DataLine(c: Config, g: Geometry, ch: Chain, y: nat, j: nat)
    requires WholeLinks(g) && c.bytesPerLine == g.bytesPerLine && y % g.linksPerLine == 0
    ensures g.bytesPerLine > 0 && LineOf(g, ch, LinkAddr(ch, y) + Offset(c, j)) == y / g.linksPerLine + j
    ensures IsDatum(ch, LinkAddr(ch, y) + Offset(c, j))
  {
    OffsetIs(c, j);
    LineOfAccess(g, ch, y, j, DATA);
    WholeOffset(y, j, g.linksPerLine);
  }

  lemma WholeOffset(y: int, j: int, w: int)
    ensures (16 * y + j * (16 * w) + 8) % 16 == 8
  {
    assert 16 * y + j * (16 * w) + 8 == (y + j * w) * 16 + 8;
    DivModUnique(y + j * w, 16, 8);
  }

  // ----- lines touched by a hop

  /** v lines from the given one on. */
  function From(line: int, v: nat): set<int> {
    if v == 0 then {} else From(line, v - 1) + {line + v - 1}
  }

  lemma {:induction false} FromIff(line: int, v: nat, l: int)
    ensures l in From(line, v) <==> line <= l < line + v
  {
    if v > 0 { FromIff(line, v - 1, l); }
  }

  /** Lines touched by a hop from link x to link y. */
  ghost function HopLines(c: Config, g: Geometry, x: nat, y: nat): set<int>
    requires WellFormed(g)
  {
    {x / g.linksPerLine} + From(y / g.linksPerLine, DataCount(c))
  }

  lemma {:induction false} SweepHas(c: Config, q: int, v: nat, j: nat) returns (e: Event)
    requires j < v
    ensures e in SweepLog(c, q, v) && Addr(e) == q + Offset(c, j)
  {
    if j < v - 1 {
      e := SweepHas(c, q, v - 1, j);
    } else {
      e := SweepLog(c, q, v)[|SweepLog(c, q, v)| - 1];
    }
  }

  lemma HopHas(c: Config, p: int, q: int, j: nat) returns (e: Event)
    requires j < DataCount(c)
    ensures e in HopLog(c, p, q) && Addr(e) == q + Offset(c, j)
  {
    if c.op.LoadAll? || c.op.StoreAll? { e := SweepHas(c, q, ValCount(c), j); } else { e := AccessLog(c, q)[0]; }
  }

  lemma HopLinesAre(c: Config, g: Geometry, ch: Chain, x: nat, y: nat)
    requires Settled(c, g, ch) && x in ch.order && y in ch.order
    ensures g.bytesPerLine > 0
    ensures LinesIn(g, ch, HopLog(c, LinkAddr(ch, x), LinkAddr(ch, y))) == HopLines(c, g, x, y)
  {
    var hop, lines := HopLog(c, LinkAddr(ch, x), LinkAddr(ch, y)), HopLines(c, g, x, y);
    LineOfAccess(g, ch, x, 0, 0);
    forall l | l in LinesIn(g, ch, hop) ensures l in lines {
      var e := LineSource(g, ch, hop, l);
      HopEventLine(c, g, ch, x, y, e);
    }
    forall l | l in lines ensures l in LinesIn(g, ch, hop) {
      var e := HopLineEvent(c, g, ch, x, y, l);
      LinesHave(g, ch, hop, e);
    }
  }

  lemma HopEventLine(c: Config, g: Geometry, ch: Chain, x: nat, y: nat, e: Event)
    requires Settled(c, g, ch) && x in ch.order && y in ch.order && e in HopLog(c, LinkAddr(ch, x), LinkAddr(ch, y))
    ensures g.bytesPerLine > 0 && LineOf(g, ch, Addr(e)) in HopLines(c, g, x, y)
  {
    LineOfAccess(g, ch, x, 0, 0);
    var j := HopEvent(c, LinkAddr(ch, x), LinkAddr(ch, y), e);
    if Addr(e) != LinkAddr(ch, x) {
      DataLine(c, g, ch, y, j);
      FromIff(y / g.linksPerLine, DataCount(c), y / g.linksPerLine + j);
    }
  }

  lemma HopLineEvent(c: Config, g: Geometry, ch: Chain, x: nat, y: nat, l: int) returns (e: Event)
    requires Settled(c, g, ch) && x in ch.order && y in ch.order && l in HopLines(c, g, x, y)
    ensures g.bytesPerLine > 0 && e in HopLog(c, LinkAddr(ch, x), LinkAddr(ch, y)) && LineOf(g, ch, Addr(e)) == l
  {
    LineOfAccess(g, ch, x, 0, 0);
    if l == x / g.linksPerLine {
      e := Read(LinkAddr(ch, x));
    } else {
      FromIff(y / g.linksPerLine, DataCount(c), l);
      var j := l - y / g.linksPerLine;
      DataLine(c, g, ch, y, j);
      e := HopHas(c, LinkAddr(ch, x), LinkAddr(ch, y), j);
    }
  }

  // ----- data accesses of a hop

  lemma OneHit(g: Geometry, ch: Chain, e: Event, l: int)
    requires g.bytesPerLine > 0
    ensures HitsIn(g, ch, [e], l) == if Hit(g, ch, e, l) then 1 else 0
  {
    assert [e][..0] == [];
  }

  lemma {:induction false} SweepHits(c: Config, g: Geometry, ch: Chain, y: nat, v: nat, l: int)
    requires WholeLinks(g) && c.bytesPerLine == g.bytesPerLine && y % g.linksPerLine == 0 && g.bytesPerLine > 0
    ensures HitsIn(g, ch, SweepLog(c, LinkAddr(ch, y), v), l) ==
      if y / g.linksPerLine <= l < y / g.linksPerLine + v then 1 else 0
    decreases v
  {
    if v > 0 {
      var q := LinkAddr(ch, y);
      var log := SweepLog(c, q, v);
      var e := log[|log| - 1];
      SweepHits(c, g, ch, y, v - 1, l);
      DataLine(c, g, ch, y, v - 1);
      assert log == SweepLog(c, q, v - 1) + [e];
      HitsAdd(g, ch, SweepLog(c, q, v - 1), [e], l);
      OneHit(g, ch, e, l);
    }
  }

  lemma AccessHits(c: Config, g: Geometry, ch: Chain, y: nat, l: int)
    requires WholeLinks(g) && c.bytesPerLine == g.bytesPerLine && y % g.linksPerLine == 0 && g.bytesPerLine > 0
    ensures HitsIn(g, ch, AccessLog(c, LinkAddr(ch, y)), l) ==
      if y / g.linksPerLine <= l < y / g.linksPerLine + DataCount(c) then 1 else 0
  {
    var q := LinkAddr(ch, y);
    if c.op.LoadAll? || c.op.StoreAll? {
      SweepHits(c, g, ch, y, ValCount(c), l);
    } else if !c.op.NoAccess? {
      DataLine(c, g, ch, y, 0);
      OneHit(g, ch, AccessLog(c, q)[0], l);
    }
  }

  /** A hop to link y accesses the data of each of the lines from y's on once, and no other data. */
  lemma HopHits(c: Config, g: Geometry, ch: Chain, x: nat, y: nat, l: int)
    requires Settled(c, g, ch) && x in ch.order && y in ch.order
    ensures g.bytesPerLine > 0
    ensures HitsIn(g, ch, HopLog(c, LinkAddr(ch, x), LinkAddr(ch, y)), l) ==
      if y / g.linksPerLine <= l < y / g.linksPerLine + DataCount(c) then 1 else 0
  {
    LineOfAccess(g, ch, x, 0, 0);
    var q, next := LinkAddr(ch, y), Read(LinkAddr(ch, x) + NEXT);
    AccessHits(c, g, ch, y, l);
    OneHit(g, ch, next, l);
    HitsAdd(g, ch, [next], AccessLog(c, q), l);
  }

  // ----- lines and data accesses of k hops

  ghost function Union(sets: seq<set<int>>, n: nat): set<int>
    requires n <= |sets|
  {
    if n == 0 then {} else Union(sets, n - 1) + sets[n - 1]
  }

  lemma {:induction false} UnionHas(sets: seq<set<int>>, n: nat, t: nat)
    requires t < n <= |sets|
    ensures sets[t] <= Union(sets, n)
  {
    if t < n - 1 { UnionHas(sets, n - 1, t); }
  }

  lemma {:induction false} UnionWithin(sets: seq<set<int>>, n: nat, all: set<int>)
    requires n <= |sets| && forall t :: 0 <= t < n ==> sets[t] <= all
    ensures Union(sets, n) <= all
  {
    if n > 0 { UnionWithin(sets, n - 1, all); }
  }

  ghost function HopSets(c: Config, g: Geometry, ch: Chain, k: nat): (sets: seq<set<int>>)
    requires WellFormed(g) && ch.order != []
    ensures |sets| == k && forall t :: 0 <= t < k ==> sets[t] == HopLines(c, g, Stand(ch, t), Stand(ch, t + 1))
  {
    if k == 0 then [] else HopSets(c, g, ch, k - 1) + [HopLines(c, g, Stand(ch, k - 1), Stand(ch, k))]
  }

  /** Lines of a chain touched in its first k hops. */
  ghost function Passed(c: Config, g: Geometry, ch: Chain, k: nat): set<int>
    requires WellFormed(g) && ch.order != []
  {
    Union(HopSets(c, g, ch, k), k)
  }

  lemma {:induction false} LinesConcat(g: Geometry, ch: Chain, logs: seq<seq<Event>>, sets: seq<set<int>>, n: nat)
    requires g.bytesPerLine > 0 && n <= |logs| == |sets|
    requires forall t :: 0 <= t < |logs| ==> LinesIn(g, ch, logs[t]) == sets[t]
    ensures LinesIn(g, ch, Concat(logs, n)) == Union(sets, n)
    decreases n
  {
    if n > 0 {
      LinesConcat(g, ch, logs, sets, n - 1);
      LinesSum(g, ch, Concat(logs, n - 1), logs[n - 1], Union(sets, n - 1), sets[n - 1]);
    }
  }

  lemma WalkedLines(c: Config, g: Geometry, ch: Chain, k: nat)
    requires Settled(c, g, ch) && g.bytesPerLine > 0
    ensures LinesIn(g, ch, Walked(c, ch, k)) == Passed(c, g, ch, k)
  {
    var hops, sets := HopsOf(c, ch, k), HopSets(c, g, ch, k);
    forall t | 0 <= t < k ensures LinesIn(g, ch, hops[t]) == sets[t] {
      HopLinesAre(c, g, ch, Stand(ch, t), Stand(ch, t + 1));
    }
    LinesConcat(g, ch, hops, sets, k);
  }

  /** Hop t lands so that its sweep includes line l. */
  predicate Lands(c: Config, g: Geometry, ch: Chain, l: int, t: nat)
    requires WellFormed(g) && ch.order != []
  {
    var line := Stand(ch, t + 1) / g.linksPerLine;
    line <= l < line + DataCount(c)
  }

  lemma {:induction false} HitsConcat(g: Geometry, ch: Chain, logs: seq<seq<Event>>, l: int, T: nat, n: nat)
    requires g.bytesPerLine > 0 && n <= |logs|
    requires forall t :: 0 <= t < |logs| ==> HitsIn(g, ch, logs[t], l) == if t == T then 1 else 0
    ensures HitsIn(g, ch, Concat(logs, n), l) == if T < n then 1 else 0
    decreases n
  {
    if n > 0 {
      HitsConcat(g, ch, logs, l, T, n - 1);
      HitsAdd(g, ch, Concat(logs, n - 1), logs[n - 1], l);
    }
  }

  /** If hop T is the only one whose sweep includes line l, its data is accessed once. */
  lemma WalkedHits(c: Config, g: Geometry, ch: Chain, k: nat, l: int, T: nat)
    requires Settled(c, g, ch) && forall t :: 0 <= t < k ==> (Lands(c, g, ch, l, t) <==> t == T)
    requires g.bytesPerLine > 0
    ensures HitsIn(g, ch, Walked(c, ch, k), l) == if T < k then 1 else 0
  {
    var hops := HopsOf(c, ch, k);
    forall t | 0 <= t < k ensures HitsIn(g, ch, hops[t], l) == if t == T then 1 else 0 {
      assert Lands(c, g, ch, l, t) <==> t == T;
      HopHits(c, g, ch, Stand(ch, t), Stand(ch, t + 1), l);
    }
    HitsConcat(g, ch, hops, l, T, k);
  }
}
