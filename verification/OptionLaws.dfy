/** What the memory operation and the stride on the command line come to: instructions, accesses and bytes,
    told without the counts that the generator derives from them. */
module OptionLaws {
  import opened NumberTheory
  import opened Geometry
  import opened Ring
  import opened ChainInit
  import opened ChaseCode
  import opened ChaseRefines
  import opened ChaseOnRings
  import opened Touched
  import opened Accounting
  import opened Bandwidth

  /** load_all or store_all with a stride of v lines in either direction. */
  predicate AllLines(c: Config, v: nat) {
    (c.op.LoadAll? || c.op.StoreAll?) && v > 0 && (c.stride == v || -c.stride == v)
  }

  predicate OneDatum(c: Config) { c.op.Load? || c.op.Store? }

  lemma AllCount(c: Config, v: nat)
    requires AllLines(c, v)
    ensures ValCount(c) == DataCount(c) == v
  {
  }

  lemma OneCount(c: Config)
    ensures OneDatum(c) ==> ValCount(c) == DataCount(c) == 1
    ensures c.op.NoAccess? ==> ValCount(c) == 1
  {
  }

  // ----- the emitted instructions

  /** Chain i's access to the datum j lines after its link, with the j-th value register. */
  function LineAccess(c: Config, i: nat, j: nat): Instr {
    if c.op.LoadAll? then Ldr(2 + c.chains + j, 2 + i, j * c.bytesPerLine + 8)
    else Str(2 + c.chains + j, 2 + i, j * c.bytesPerLine + 8)
  }

  lemma {:induction false} SweepAt(c: Config, i: nat, v: nat)
    requires c.op.LoadAll? || c.op.StoreAll?
    ensures |Sweep(c, i, v)| == v
    ensures forall j :: 0 <= j < v ==> Sweep(c, i, v)[j] == LineAccess(c, i, j)
    decreases v
  {
    if v > 0 {
      SweepAt(c, i, v - 1);
      OffsetIs(c, v - 1);
    }
  }

  /** The data accesses of a hop: for the "all" operations one on each of v lines, from the value registers in
      turn; for load and store one on the line of the link; otherwise none. */
  lemma HopAccesses(c: Config, i: nat, v: nat)
    ensures AllLines(c, v) ==> |Access(c, i)| == v && forall j :: 0 <= j < v ==> Access(c, i)[j] == LineAccess(c, i, j)
    ensures c.op.Load? ==> Access(c, i) == [Ldr(2 + c.chains, 2 + i, 8)]
    ensures c.op.Store? ==> Access(c, i) == [Str(2 + c.chains, 2 + i, 8)]
    ensures c.op.NoAccess? ==> Access(c, i) == []
  {
    if AllLines(c, v) {
      AllCount(c, v);
      SweepAt(c, i, v);
    }
  }

  lemma {:induction false} RootsAtLength(n: nat)
    ensures |LoadRoots(n)| == n
  {
    if n > 0 { RootsAtLength(n - 1); }
  }

  lemma {:induction false} ValuesAt(c: Config, v: nat)
    ensures |InitVals(c, v)| == v
    ensures forall j :: 0 <= j < v ==> InitVals(c, v)[j] == Mov(2 + c.chains + j, 100 * j)
    decreases v
  {
    if v > 0 { ValuesAt(c, v - 1); }
  }

  /** The value registers are set to multiples of 100 before the loop: v of them for the "all" operations, and
      otherwise one. */
  lemma EntryValues(c: Config, v: nat)
    requires AllLines(c, v) || (v == 1 && (OneDatum(c) || c.op.NoAccess?))
    ensures |Prologue(c)| == 1 + c.chains + v
    ensures forall j :: 0 <= j < v ==> Prologue(c)[1 + c.chains + j] == Mov(2 + c.chains + j, 100 * j)
  {
    if AllLines(c, v) { AllCount(c, v); } else { OneCount(c); }
    RootsAtLength(c.chains);
    ValuesAt(c, v);
  }

  // ----- waiting

  function NopsIn(code: seq<Instr>): nat {
    if code == [] then 0 else NopsIn(code[..|code| - 1]) + (if code[|code| - 1].Nop? then 1 else 0)
  }

  lemma {:induction false} NopsAdd(a: seq<Instr>, b: seq<Instr>)
    ensures NopsIn(a + b) == NopsIn(a) + NopsIn(b)
    decreases |b|
  {
    if b == [] {
      assert a + b == a;
    } else {
      assert (a + b)[..|a + b| - 1] == a + b[..|b| - 1];
      NopsAdd(a, b[..|b| - 1]);
    }
  }

  lemma {:induction false} NoNops(code: seq<Instr>)
    requires forall k :: 0 <= k < |code| ==> !code[k].Nop?
    ensures NopsIn(code) == 0
  {
    if code != [] { NoNops(code[..|code| - 1]); }
  }

  lemma {:induction false} NopsOf(n: nat)
    ensures NopsIn(Nops(n)) == n && |Nops(n)| == n
  {
    if n > 0 {
      NopsOf(n - 1);
      NopsAdd(Nops(n - 1), [Nop]);
      assert [Nop][..0] == [];
    }
  }

  lemma {:induction false} SweepBusy(c: Config, i: nat, v: nat)
    ensures forall k :: 0 <= k < |Sweep(c, i, v)| ==> !Sweep(c, i, v)[k].Nop?
    decreases v
  {
    if v > 0 { SweepBusy(c, i, v - 1); }
  }

  lemma {:induction false} HopsBusy(c: Config, n: nat)
    ensures forall k :: 0 <= k < |Hops(c, n)| ==> !Hops(c, n)[k].Nop?
    decreases n
  {
    if n > 0 {
      HopsBusy(c, n - 1);
      SweepBusy(c, n - 1, ValCount(c));
    }
  }

  /** A round waits for as many nops as the loop length says. */
  lemma LoopWaits(c: Config)
    ensures NopsIn(Body(c)) == c.loopLength
  {
    HopsBusy(c, c.chains);
    NoNops(Hops(c, c.chains));
    NopsOf(c.loopLength);
    NopsAdd(Hops(c, c.chains), Nops(c.loopLength));
    NopsAdd(Hops(c, c.chains) + Nops(c.loopLength), [Cmp(HEAD, Pos(0))]);
    assert [Cmp(HEAD, Pos(0))][..0] == [];
  }

  // ----- accesses in the log of a call

  /** The thread's chains hold the strided rings of v, in either direction. */
  ghost predicate HasRings(c: Config, g: Geometry, tm: ThreadMemory, v: nat)
    requires v > 0
  {
    && WholeLinks(g) && c.bytesPerLine == g.bytesPerLine && |tm.chains| == c.chains > 0
    && Apart(g, tm.chains, tm.arg) && AllLaidOut(g, tm.mem, tm.chains)
    && RootsAt(tm.mem, tm.arg, Roots(tm.chains))
    && forall i :: 0 <= i < |tm.chains| ==>
         tm.chains[i].order == ForwardOrder(g, v) || tm.chains[i].order == ReverseOrder(g, v)
  }

  lemma RingsPrepared(c: Config, g: Geometry, tm: ThreadMemory, v: nat)
    requires AllLines(c, v) && HasRings(c, g, tm, v) && g.linesPerChain % v == 0
    ensures Prepared(c, g, tm, CeilDiv(g.linesPerChain, v))
  {
    AllCount(c, v);
    forall i | 0 <= i < |tm.chains|
      ensures Covered(c, g, tm.chains[i].order) && |tm.chains[i].order| == CeilDiv(g.linesPerChain, v)
    {
      StridedCovered(c, g, v, tm.chains[i].order);
    }
  }

  /** One load_all or store_all pass with stride v, v dividing the lines of the chain: the call returns after
      lines/v rounds, and its log has exactly one data access on each line of each chain. */
  lemma AllLinesOnce(c: Config, g: Geometry, tm: ThreadMemory, v: nat) returns (m: Machine)
    requires AllLines(c, v) && HasRings(c, g, tm, v) && g.linesPerChain % v == 0
    ensures CallReturns(c, tm.arg, tm.mem, CeilDiv(g.linesPerChain, v), m)
    ensures CallDone(c, tm.mem, Protected(c, g, tm.chains, tm.arg), tm.arg, Roots(tm.chains),
      CeilDiv(g.linesPerChain, v), m)
    ensures g.bytesPerLine > 0
    ensures forall i, l: nat :: 0 <= i < c.chains && l < g.linesPerChain ==> Hits(g, tm.chains[i], m.log, l) == 1
  {
    var ops := CeilDiv(g.linesPerChain, v);
    AllCount(c, v);
    RingsPrepared(c, g, tm, v);
    PreparedSettled(c, g, tm, ops);
    m := BenchReturns(c, g, tm.chains, tm.arg, tm.mem, false, ops);
    assert WholeLinks(g);
    forall i, l: nat | 0 <= i < c.chains && l < g.linesPerChain
      ensures g.bytesPerLine > 0 && Hits(g, tm.chains[i], m.log, l) == 1
    {
      EachLineHitOnce(c, g, tm, ops, m, i, l);
    }
  }

  /** The thread's chains hold rings of n lines each, whatever their order. */
  ghost predicate HasLineRings(c: Config, g: Geometry, tm: ThreadMemory, n: nat) {
    && WholeLinks(g) && c.bytesPerLine == g.bytesPerLine && |tm.chains| == c.chains > 0
    && Apart(g, tm.chains, tm.arg) && AllLaidOut(g, tm.mem, tm.chains)
    && RootsAt(tm.mem, tm.arg, Roots(tm.chains))
    && forall i :: 0 <= i < |tm.chains| ==> IsLineRing(g, tm.chains[i].order) && |tm.chains[i].order| == n
  }

  ghost predicate IsLineRing(g: Geometry, order: seq<nat>)
    requires WellFormed(g)
  {
    order != [] && NoRepeat(order) && LineStarts(g, order) && InMemory(order, g.linksPerChain)
  }

  /** The ring of the chain goes through line l. */
  predicate HasLine(g: Geometry, ch: Chain, l: int)
    requires WellFormed(g)
  {
    exists k :: 0 <= k < |ch.order| && ch.order[k] == l * g.linksPerLine
  }

  lemma LineFirst(x: nat, w: nat, l: int)
    requires w > 0 && x % w == 0
    ensures x == l * w <==> x / w == l
  {
    if x == l * w { DivModUnique(l, w, 0); }
    assert x == (x / w) * w;
  }

  /** The hop that lands on line l, or none. */
  lemma OnlyLanding(c: Config, g: Geometry, ch: Chain, l: int) returns (T: nat)
    requires OneDatum(c) && WellFormed(g) && IsLineRing(g, ch.order)
    ensures T < |ch.order| <==> HasLine(g, ch, l)
    ensures forall t :: 0 <= t < |ch.order| ==> (Lands(c, g, ch, l, t) <==> t == T)
  {
    var n := |ch.order|;
    if HasLine(g, ch, l) {
      var q: nat :| q < n && ch.order[q] == l * g.linksPerLine;
      T := if q > 0 then q - 1 else n - 1;
      forall t | 0 <= t < n ensures Lands(c, g, ch, l, t) <==> t == T {
        var k := LandsOn(c, g, ch, l, t);
        assert ch.order[k] == ch.order[q] <==> k == q;
      }
    } else {
      T := n;
      forall t | 0 <= t < n ensures !Lands(c, g, ch, l, t) { var k := LandsOn(c, g, ch, l, t); }
    }
  }

  lemma LandsOn(c: Config, g: Geometry, ch: Chain, l: int, t: nat) returns (k: nat)
    requires OneDatum(c) && WellFormed(g) && IsLineRing(g, ch.order) && t < |ch.order|
    ensures k < |ch.order| && k == (if t + 1 < |ch.order| then t + 1 else 0)
    ensures Lands(c, g, ch, l, t) <==> ch.order[k] == l * g.linksPerLine
  {
    var x, y := HopEnds(ch, t);
    k := if t + 1 < |ch.order| then t + 1 else 0;
    LineFirst(ch.order[k], g.linksPerLine, l);
  }

  /** One load or store pass: the call returns after as many rounds as each ring has lines, and its log has
      exactly one data access on each line of each ring and none on other lines; without a memory operation
      it has none at all. */
  lemma OneDatumEach(c: Config, g: Geometry, tm: ThreadMemory, n: nat) returns (m: Machine)
    requires (OneDatum(c) || c.op.NoAccess?) && HasLineRings(c, g, tm, n)
    ensures CallReturns(c, tm.arg, tm.mem, n, m)
    ensures g.bytesPerLine > 0
    ensures forall i, l :: 0 <= i < c.chains ==>
      Hits(g, tm.chains[i], m.log, l) == if OneDatum(c) && HasLine(g, tm.chains[i], l) then 1 else 0
  {
    OneCount(c);
    assert Prepared(c, g, tm, n);
    PreparedSettled(c, g, tm, n);
    m := BenchReturns(c, g, tm.chains, tm.arg, tm.mem, false, n);
    assert WholeLinks(g);
    forall i, l | 0 <= i < c.chains
      ensures g.bytesPerLine > 0
      ensures Hits(g, tm.chains[i], m.log, l) == if OneDatum(c) && HasLine(g, tm.chains[i], l) then 1 else 0
    {
      LineHits(c, g, tm, n, m, i, l);
    }
  }

  lemma LineHits(c: Config, g: Geometry, tm: ThreadMemory, n: nat, m: Machine, i: nat, l: int)
    requires (OneDatum(c) || c.op.NoAccess?) && HasLineRings(c, g, tm, n) && i < c.chains
    requires AllSettled(c, g, tm.chains)
    requires CallDone(c, tm.mem, Protected(c, g, tm.chains, tm.arg), tm.arg, Roots(tm.chains), n, m)
    ensures g.bytesPerLine > 0
    ensures Hits(g, tm.chains[i], m.log, l) == if OneDatum(c) && HasLine(g, tm.chains[i], l) then 1 else 0
  {
    var ch := tm.chains[i];
    CallWalk(c, g, tm.chains, tm.arg, tm.mem, m, i);
    var T := n;
    if OneDatum(c) { T := OnlyLanding(c, g, ch, l); }
    WalkedHits(c, g, ch, n, l, T);
  }

  // ----- bytes

  /** The formula counts v lines per hop for the "all" operations, and one otherwise. */
  lemma FormulaLines(c: Config, g: Geometry, ops: nat, iterations: int, threads: nat, v: nat)
    ensures AllLines(c, v) ==>
      FormulaBytes(c, g, ops, iterations, threads) == ops * iterations * c.chains * threads * g.bytesPerLine * v
    ensures OneDatum(c) || c.op.NoAccess? ==>
      FormulaBytes(c, g, ops, iterations, threads) == ops * iterations * c.chains * threads * g.bytesPerLine
  {
    if AllLines(c, v) { AllCount(c, v); } else { OneCount(c); }
  }
}
