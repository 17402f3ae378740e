/** What a pass of stores leaves in memory. */
module StoredData {
  import opened NumberTheory
  import opened Geometry
  import opened ByteMemory
  import opened ChaseCode
  import opened ChaseRefines
  import opened ChaseOnRings
  import opened OwnEvents
  import opened Touched
  import opened Accounting
  import opened Bandwidth
  import opened OptionLaws

  // ----- one word under the writes of a log

  /** All writes that touch the word at a write x to it. */
  ghost predicate OnlyWrites(log: seq<Event>, a: int, x: int) {
    forall e :: e in log && e.Write? && Overlap(e.addr, a) ==> e == Write(a, x)
  }

  lemma {:induction false} LastWrite(mem: Memory, log: seq<Event>, a: int, x: int)
    requires OnlyWrites(log, a, x) && Write(a, x) in log && 0 <= x < 0x1_0000_0000_0000_0000
    ensures Word(Replay(mem, log), a) == x
  {
    var n := |log| - 1;
    var before, e := log[..n], log[n];
    if e == Write(a, x) {
      WordPut(Replay(mem, before), a, x);
    } else {
      assert Write(a, x) in before;
      LastWrite(mem, before, a, x);
      if e.Write? { WordApart(Replay(mem, before), e.addr, e.value, a); }
    }
  }

  // ----- membership in the log of a call

  lemma {:induction false} OwnIff(g: Geometry, ch: Chain, log: seq<Event>, e: Event)
    ensures e in Own(g, ch, log) <==> e in log && InRegion(g, ch, Addr(e))
  {
    if log != [] { OwnIff(g, ch, log[..|log| - 1], e); }
  }

  lemma {:induction false} InConcat(logs: seq<seq<Event>>, n: nat, e: Event) returns (t: nat)
    requires n <= |logs| && e in Concat(logs, n)
    ensures t < n && e in logs[t]
  {
    if e in Concat(logs, n - 1) { t := InConcat(logs, n - 1, e); } else { t := n - 1; }
  }

  lemma {:induction false} ConcatHas(logs: seq<seq<Event>>, n: nat, t: nat, e: Event)
    requires t < n <= |logs| && e in logs[t]
    ensures e in Concat(logs, n)
    decreases n
  {
    if t < n - 1 { ConcatHas(logs, n - 1, t, e); }
  }

  lemma {:induction false} SweepWrites(c: Config, q: int, v: nat, e: Event) returns (j: nat)
    requires c.op.StoreAll? && e in SweepLog(c, q, v)
    ensures j < v && e == Write(q + Offset(c, j), 100 * j)
  {
    if e in SweepLog(c, q, v - 1) { j := SweepWrites(c, q, v - 1, e); } else { j := v - 1; }
  }

  lemma {:induction false} SweepWrite(c: Config, q: int, v: nat, j: nat)
    requires c.op.StoreAll? && j < v
    ensures Write(q + Offset(c, j), 100 * j) in SweepLog(c, q, v)
    decreases v
  {
    if j < v - 1 {
      SweepWrite(c, q, v - 1, j);
    } else {
      var log := SweepLog(c, q, v);
      assert log[|log| - 1] == Write(q + Offset(c, j), 100 * j);
    }
  }

  /** The writes of a hop. */
  lemma HopWrites(c: Config, p: int, q: int, e: Event) returns (j: nat)
    requires c.op.StoreAll? && e in HopLog(c, p, q) && e.Write?
    ensures j < DataCount(c) && e == Write(q + Offset(c, j), 100 * j)
  {
    j := SweepWrites(c, q, ValCount(c), e);
  }

  // ----- a store_all pass

  /** Address of the datum of line l. */
  function Datum(g: Geometry, ch: Chain, l: nat): int { ch.base + l * g.bytesPerLine + 8 }

  lemma DatumIs(c: Config, g: Geometry, ch: Chain, y: nat, j: nat)
    requires WholeLinks(g) && c.bytesPerLine == g.bytesPerLine && y % g.linksPerLine == 0
    ensures LinkAddr(ch, y) + Offset(c, j) == Datum(g, ch, y / g.linksPerLine + j)
  {
    var l, w := y / g.linksPerLine, g.linksPerLine;
    OffsetIs(c, j);
    assert y == l * w;
    Distribute(l, j, w);
  }

  lemma LineUp(l: int, k: int, w: int)
    requires l < k && w >= 0
    ensures l * w + w <= k * w
  {
    MulMono(l + 1, k, w);
    assert (l + 1) * w == l * w + w;
  }

  /** The data words of different lines are apart. */
  lemma DatumApart(g: Geometry, ch: Chain, l: nat, k: nat)
    requires WholeLinks(g) && Overlap(Datum(g, ch, l), Datum(g, ch, k))
    ensures l == k
  {
    if l < k { LineUp(l, k, g.bytesPerLine); }
    if k < l { LineUp(k, l, g.bytesPerLine); }
  }

  /** A write of a hop that touches line l's datum is the one that the sweep makes there. */
  lemma WriteOnLine(c: Config, g: Geometry, ch: Chain, v: nat, i: nat, j: nat, l: nat)
    requires WholeLinks(g) && c.bytesPerLine == g.bytesPerLine && Strided(g, v, ch.order) && i < |ch.order| && j < v
    requires Overlap(LinkAddr(ch, ch.order[i]) + Offset(c, j), Datum(g, ch, l))
    ensures LinkAddr(ch, ch.order[i]) + Offset(c, j) == Datum(g, ch, l) && j == l % v
  {
    StridedRing(g, v, ch.order);
    DatumIs(c, g, ch, ch.order[i], j);
    StridedLine(g, v, ch.order, i);
    DatumApart(g, ch, LineAt(g, ch.order, i) + j, l);
    DivModUnique(Group(g, v, ch.order, i), v, j);
  }

  lemma DatumInside(g: Geometry, ch: Chain, l: nat, a: int)
    requires WholeLinks(g) && l < g.linesPerChain && Overlap(a, Datum(g, ch, l))
    ensures InRegion(g, ch, a)
  {
    MulMono(0, l, g.bytesPerLine);
    LineUp(l, g.linesPerChain, g.bytesPerLine);
    assert g.linesPerChain * g.bytesPerLine == 16 * g.linksPerChain;
  }

  lemma InWalked(c: Config, ch: Chain, k: nat, e: Event) returns (t: nat)
    requires ch.order != [] && e in Walked(c, ch, k)
    ensures t < k && e in HopOf(c, ch, t)
  {
    t := InConcat(HopsOf(c, ch, k), k, e);
  }

  /** A write of the walk is one of a hop onto a position of the ring. */
  lemma WalkWrite(c: Config, ch: Chain, e: Event) returns (i: nat, j: nat)
    requires c.op.StoreAll? && ch.order != [] && e in Walked(c, ch, |ch.order|) && e.Write?
    ensures i < |ch.order| && j < DataCount(c) && e == Write(LinkAddr(ch, ch.order[i]) + Offset(c, j), 100 * j)
  {
    var t := InWalked(c, ch, |ch.order|, e);
    j := HopWrites(c, LinkAddr(ch, Stand(ch, t)), LinkAddr(ch, Stand(ch, t + 1)), e);
    i :| i < |ch.order| && ch.order[i] == Stand(ch, t + 1);
  }

  lemma OnlyLineWrites(c: Config, g: Geometry, ch: Chain, v: nat, l: nat)
    requires WholeLinks(g) && c.bytesPerLine == g.bytesPerLine && c.op.StoreAll? && DataCount(c) == v
    requires Strided(g, v, ch.order) && ch.order != []
    ensures OnlyWrites(Walked(c, ch, |ch.order|), Datum(g, ch, l), 100 * (l % v))
  {
    var log := Walked(c, ch, |ch.order|);
    forall e | e in log && e.Write? && Overlap(e.addr, Datum(g, ch, l))
      ensures e == Write(Datum(g, ch, l), 100 * (l % v))
    {
      var i, j := WalkWrite(c, ch, e);
      WriteOnLine(c, g, ch, v, i, j, l);
    }
  }

  /** What touches a datum of the chain is among the chain's own events. */
  lemma OwnWrites(g: Geometry, ch: Chain, log: seq<Event>, l: nat, x: int)
    requires WholeLinks(g) && l < g.linesPerChain && OnlyWrites(Own(g, ch, log), Datum(g, ch, l), x)
    ensures OnlyWrites(log, Datum(g, ch, l), x)
  {
    forall e | e in log && e.Write? && Overlap(e.addr, Datum(g, ch, l)) ensures e == Write(Datum(g, ch, l), x) {
      DatumInside(g, ch, l, e.addr);
      OwnIff(g, ch, log, e);
    }
  }

  lemma HopWrite(c: Config, p: int, q: int, j: nat, e: Event)
    requires c.op.StoreAll? && j < DataCount(c) && e == Write(q + Offset(c, j), 100 * j)
    ensures e in HopLog(c, p, q)
  {
    SweepWrite(c, q, ValCount(c), j);
  }

  lemma WalkedHas(c: Config, ch: Chain, k: nat, t: nat, e: Event)
    requires ch.order != [] && t < k && e in HopOf(c, ch, t)
    ensures e in Walked(c, ch, k)
  {
    ConcatHas(HopsOf(c, ch, k), k, t, e);
  }

  lemma HopBefore(ch: Chain, i: nat) returns (t: nat)
    requires NoRepeat(ch.order) && i < |ch.order|
    ensures t < |ch.order| && Stand(ch, t + 1) == ch.order[i]
  {
    t := if i > 0 then i - 1 else |ch.order| - 1;
    var x, y := HopEnds(ch, t);
  }

  /** The hop that lands on position i writes the datum j lines on. */
  lemma HopOnto(c: Config, ch: Chain, i: nat, j: nat, e: Event)
    requires c.op.StoreAll? && NoRepeat(ch.order) && i < |ch.order| && j < DataCount(c)
    requires e == Write(LinkAddr(ch, ch.order[i]) + Offset(c, j), 100 * j)
    ensures e in Walked(c, ch, |ch.order|)
  {
    var t := HopBefore(ch, i);
    HopWrite(c, LinkAddr(ch, Stand(ch, t)), LinkAddr(ch, Stand(ch, t + 1)), j, e);
    WalkedHas(c, ch, |ch.order|, t, e);
  }

  /** The position and line of a sweep that include line l. */
  lemma SweepOver(c: Config, g: Geometry, ch: Chain, v: nat, l: nat) returns (i: nat, j: nat)
    requires WholeLinks(g) && c.bytesPerLine == g.bytesPerLine && Strided(g, v, ch.order) && l < g.linesPerChain
    ensures i < |ch.order| && j < v && j == l % v && LinkAddr(ch, ch.order[i]) + Offset(c, j) == Datum(g, ch, l)
  {
    StridedRing(g, v, ch.order);
    i, j := EachLineOnce(g, v, ch.order, l);
    DatumIs(c, g, ch, ch.order[i], j);
    StridedLine(g, v, ch.order, i);
    DivModUnique(Group(g, v, ch.order, i), v, j);
  }

  lemma HasLineWrite(c: Config, g: Geometry, ch: Chain, v: nat, l: nat)
    requires WholeLinks(g) && c.bytesPerLine == g.bytesPerLine && c.op.StoreAll? && DataCount(c) == v
    requires Strided(g, v, ch.order) && NoRepeat(ch.order) && ch.order != [] && l < g.linesPerChain
    ensures Write(Datum(g, ch, l), 100 * (l % v)) in Walked(c, ch, |ch.order|)
  {
    var i, j := SweepOver(c, g, ch, v, l);
    HopOnto(c, ch, i, j, Write(Datum(g, ch, l), 100 * j));
  }

  /** The data of the lines count up in steps of 100 and start again after v lines. */
  ghost predicate HoldsSteps(g: Geometry, mem: Memory, ch: Chain, v: nat)
    requires v > 0
  {
    forall l: nat {:trigger Datum(g, ch, l)} :: l < g.linesPerChain ==> Word(mem, Datum(g, ch, l)) == 100 * (l % v)
  }

  /** After one store_all pass with stride v, v dividing the lines of the chain, the datum of line l holds 100
      times the remainder of l, in every chain. */
  lemma StoreAllLeaves(c: Config, g: Geometry, tm: ThreadMemory, v: nat) returns (m: Machine)
    requires c.op.StoreAll? && AllLines(c, v) && HasRings(c, g, tm, v) && g.linesPerChain % v == 0
    requires 100 * v <= 0x1_0000_0000
    ensures CallReturns(c, tm.arg, tm.mem, CeilDiv(g.linesPerChain, v), m)
    ensures forall i :: 0 <= i < c.chains ==> HoldsSteps(g, m.mem, tm.chains[i], v)
  {
    m := AllLinesOnce(c, g, tm, v);
    forall i | 0 <= i < c.chains ensures HoldsSteps(g, m.mem, tm.chains[i], v) {
      var ch := tm.chains[i];
      forall l: nat {:trigger Datum(g, ch, l)} | l < g.linesPerChain
        ensures Word(m.mem, Datum(g, ch, l)) == 100 * (l % v)
      {
        LineHolds(c, g, tm, v, m, i, l);
      }
    }
  }

  lemma LineHolds(c: Config, g: Geometry, tm: ThreadMemory, v: nat, m: Machine, i: nat, l: nat)
    requires c.op.StoreAll? && AllLines(c, v) && HasRings(c, g, tm, v) && g.linesPerChain % v == 0
    requires 100 * v <= 0x1_0000_0000 && i < c.chains && l < g.linesPerChain
    requires CallDone(c, tm.mem, Protected(c, g, tm.chains, tm.arg), tm.arg, Roots(tm.chains),
      CeilDiv(g.linesPerChain, v), m)
    ensures Word(m.mem, Datum(g, tm.chains[i], l)) == 100 * (l % v)
  {
    var ch, ops := tm.chains[i], CeilDiv(g.linesPerChain, v);
    AllCount(c, v);
    RingsPrepared(c, g, tm, v);
    PreparedSettled(c, g, tm, ops);
    StridedRing(g, v, ch.order);
    CallWalk(c, g, tm.chains, tm.arg, tm.mem, m, i);
    OnlyLineWrites(c, g, ch, v, l);
    OwnWrites(g, ch, m.log, l, 100 * (l % v));
    HasLineWrite(c, g, ch, v, l);
    OwnIff(g, ch, m.log, Write(Datum(g, ch, l), 100 * (l % v)));
    LastWrite(tm.mem, m.log, Datum(g, ch, l), 100 * (l % v));
  }
}
