/** Where the data accesses of a hop land: inside the chain or not, on `next` fields or not. */
module DataAccesses {
  import opened NumberTheory
  import opened Geometry
  import opened Ring
  import opened ChainInit
  import opened ByteMemory
  import opened ChaseCode
  import opened ChaseRefines

  /** All data accesses from links of the ring stay inside the chain. */
  ghost predicate StaysInside(c: Config, g: Geometry, order: seq<nat>) {
    forall x, j :: x in order && 0 <= j < DataCount(c) ==> 16 * x + Offset(c, j) + 8 <= 16 * g.linksPerChain
  }

  /** Some data access from a link of the ring shares a byte with the `next` field of link y. */
  ghost predicate Touches(c: Config, order: seq<nat>, y: int) {
    exists x, j :: x in order && 0 <= j < DataCount(c) && Overlap(16 * x + Offset(c, j), 16 * y)
  }

  /** A caller can check this before a run: at most one line per hop, or lines of whole links. */
  predicate Aligned(c: Config) {
    DataCount(c) <= 1 || c.bytesPerLine % 16 == 0
  }

  lemma AlignedOffset(c: Config, j: nat)
    requires Aligned(c) && j < DataCount(c)
    ensures Offset(c, j) % 16 == 8
    ensures c.bytesPerLine % 16 == 0 ==> Offset(c, j) == 16 * (j * (c.bytesPerLine / 16)) + 8
  {
    OffsetIs(c, j);
    if c.bytesPerLine % 16 == 0 {
      var w := c.bytesPerLine / 16;
      assert j * c.bytesPerLine == j * (16 * w) == 16 * (j * w);
    }
  }

  lemma OffsetPositive(c: Config, j: nat)
    ensures Offset(c, j) >= 8
  {
    OffsetIs(c, j);
    MulMono(0, j, c.bytesPerLine);
  }

  /** Eight bytes that are not a datum of the link array share a byte with a `next` field of it. */
  lemma SomeNext(a: int, links: nat) returns (y: nat)
    requires 0 <= a && a + 8 <= 16 * links && a % 16 != 8
    ensures y < links && Overlap(a, 16 * y)
  {
    y := if a % 16 < 8 then a / 16 else a / 16 + 1;
  }

  /** For accesses inside the chain: none of them touches a `next` field of the chain, on the ring or not,
      exactly when the configuration is aligned. */
  lemma AccessesMissNextIff(c: Config, g: Geometry, order: seq<nat>)
    requires order != [] && InMemory(order, g.linksPerChain) && StaysInside(c, g, order)
    ensures (forall y: nat :: y < g.linksPerChain ==> !Touches(c, order, y)) <==> Aligned(c)
  {
    if Aligned(c) {
      AlignedMisses(c, order);
    } else {
      OffsetIs(c, 1);
      assert order[0] in order;
      var y := SomeNext(16 * order[0] + Offset(c, 1), g.linksPerChain);
      assert Touches(c, order, y);
    }
  }

  lemma AlignedMisses(c: Config, order: seq<nat>)
    requires Aligned(c)
    ensures forall y :: !Touches(c, order, y)
  {
    forall y ensures !Touches(c, order, y) {
      forall x, j | x in order && 0 <= j < DataCount(c) ensures !Overlap(16 * x + Offset(c, j), 16 * y) {
        AlignedOffset(c, j);
      }
    }
  }

  /** A ring survives stores that touch no `next` field of its own links. */
  ghost predicate Spared(c: Config, order: seq<nat>) {
    Stores(c) ==> forall y :: y in order ==> !Touches(c, order, y)
  }

  /** One datum per hop lies next to the pointer. */
  lemma OneAccessFits(c: Config, g: Geometry, order: seq<nat>)
    requires DataCount(c) <= 1 && InMemory(order, g.linksPerChain)
    ensures StaysInside(c, g, order) && Spared(c, order)
  {
    forall x, j | x in order && 0 <= j < DataCount(c) ensures Offset(c, j) == DATA { assert j == 0; }
  }

  // ----- strided sweeps

  /** The configuration sweeps as many lines per hop as the stride skips. */
  predicate Sweeps(c: Config, g: Geometry, stride: nat) {
    WellFormed(g) && stride > 0 && DataCount(c) == stride && g.linksPerLine == c.bytesPerLine / 16
  }

  /** What is left of a line behind its last whole link adds up over a sweep. */
  predicate SlackFits(c: Config, g: Geometry, stride: nat) {
    (stride - 1) * (c.bytesPerLine % 16) + 16 <= 16 * g.linksPerLine
  }

  lemma SweepAddress(c: Config, g: Geometry, stride: nat, k: nat, j: nat)
    requires Sweeps(c, g, stride)
    ensures 16 * StrideSlot(g, stride, k) + Offset(c, j) ==
            16 * g.linksPerLine * (k * stride + j) + j * (c.bytesPerLine % 16) + 8
  {
    OffsetIs(c, j);
    Spread(k, j, stride, g.linksPerLine, c.bytesPerLine % 16);
    assert c.bytesPerLine == 16 * g.linksPerLine + c.bytesPerLine % 16;
  }

  lemma Spread(k: int, j: int, s: int, w: int, r: int)
    ensures 16 * (k * s * w) + j * (16 * w + r) == 16 * w * (k * s + j) + j * r
  {
  }

  /** A sweep that starts at line l, with at least s lines left, ends inside. */
  lemma SweepEnds(l: int, lines: int, j: int, s: int, w: int, r: int)
    requires 0 <= j < s && 0 <= r && w >= 1 && l + s <= lines && (s - 1) * r + 16 <= 16 * w
    ensures 16 * w * (l + j) + j * r + 16 <= 16 * w * lines
  {
    MulMono(j, s - 1, r);
    MulMono(l + j, lines - 1, 16 * w);
    assert (lines - 1) * (16 * w) == 16 * w * lines - 16 * w;
  }

  /** The last access of a sweep that reaches beyond the last line. */
  lemma SweepBeyond(l: int, lines: int, s: int, w: int, r: int)
    requires s >= 1 && r >= 0 && w >= 1 && l + s - 1 >= lines
    ensures 16 * w * (l + (s - 1)) + (s - 1) * r + 16 > 16 * w * lines
  {
    MulMono(lines, l + (s - 1), 16 * w);
    MulMono(0, s - 1, r);
  }

  lemma LastSweep(lines: nat, s: nat, w: int, r: int)
    requires s > 0 && lines > 0 && lines % s == 0
    ensures var l := (CeilDiv(lines, s) - 1) * s;
      16 * w * (l + (s - 1)) + (s - 1) * r + 16 <= 16 * w * lines <==> (s - 1) * r + 16 <= 16 * w
  {
    DividedStride(lines, s, 0, 0);
    var n := CeilDiv(lines, s);
    assert (n - 1) * s == lines - s;
    assert 16 * w * (lines - 1) == 16 * w * lines - 16 * w;
  }

  /** A strided "all" pass stays inside the chain exactly when the stride divides the chain and the slack of
      the lines fits; for lines of whole links the latter always holds. */
  lemma StridedStaysInsideIff(c: Config, g: Geometry, stride: nat, order: seq<nat>)
    requires Sweeps(c, g, stride) && (order == ForwardOrder(g, stride) || order == ReverseOrder(g, stride))
    ensures StaysInside(c, g, order) <==> g.linesPerChain % stride == 0 && SlackFits(c, g, stride)
    ensures c.bytesPerLine % 16 == 0 ==> SlackFits(c, g, stride)
  {
    var n, w, r, fwd := CeilDiv(g.linesPerChain, stride), g.linksPerLine, c.bytesPerLine % 16, ForwardOrder(g, stride);
    ReversedElements(fwd);
    StrideCount(g, stride);
    WordsOfLines(g);
    if g.linesPerChain % stride == 0 && SlackFits(c, g, stride) {
      forall x, j | x in order && 0 <= j < DataCount(c) ensures 16 * x + Offset(c, j) + 8 <= 16 * g.linksPerChain {
        assert x in fwd;
        var k :| 0 <= k < n && fwd[k] == x;
        SweepAddress(c, g, stride, k, j);
        DividedStride(g.linesPerChain, stride, k, stride - 1);
        SweepEnds(k * stride, g.linesPerChain, j, stride, w, r);
      }
    } else {
      assert fwd[n - 1] in order;
      SweepAddress(c, g, stride, n - 1, stride - 1);
      if g.linesPerChain % stride == 0 {
        LastSweep(g.linesPerChain, stride, w, r);
      } else {
        UndividedStride(g.linesPerChain, stride);
        SweepBeyond((n - 1) * stride, g.linesPerChain, stride, w, r);
      }
    }
  }

  lemma WordsOfLines(g: Geometry)
    requires WellFormed(g)
    ensures 16 * g.linksPerChain == 16 * g.linksPerLine * g.linesPerChain
  {
  }

  lemma DividedStride(lines: nat, stride: nat, k: nat, j: nat)
    requires stride > 0 && lines % stride == 0 && k < CeilDiv(lines, stride) && j < stride
    ensures CeilDiv(lines, stride) * stride == lines && k * stride + j < lines
  {
    var q := lines / stride;
    assert lines == q * stride;
    CeilDivExact(q, stride);
    LineBound(k, j, q, stride);
  }

  lemma UndividedStride(lines: nat, stride: nat)
    requires stride > 0 && lines % stride != 0
    ensures CeilDiv(lines, stride) > 0 && (CeilDiv(lines, stride) - 1) * stride + (stride - 1) >= lines
  {
    var n := CeilDiv(lines, stride);
    CeilDivLeast(lines, stride, n);
    assert (n - 1) * stride == n * stride - stride;
    if n * stride == lines { DivModUnique(n, stride, 0); assert false; }
  }

  lemma Difference(k: int, k': int, j: int, s: int, w: int)
    ensures 16 * w * (k * s + j) - 16 * w * (k' * s) == 16 * w * ((k - k') * s + j)
  {
  }

  /** A line of the ring before the sweep, or the line where it starts. */
  lemma ClearBehind(d: int, j: int, s: int, w: int, r: int)
    requires 0 <= j < s && 0 <= r && w >= 1 && d >= 0
    ensures 16 * w * (d * s + j) + j * r >= 0
  {
    MulMono(0, j, r);
    MulMono(0, d, s);
    MulMono(0, d * s + j, 16 * w);
  }

  /** A line of the ring after the sweep. */
  lemma ClearAhead(d: int, j: int, s: int, w: int, r: int)
    requires 0 <= j < s && 0 <= r && w >= 1 && d < 0 && (s - 1) * r + 16 <= 16 * w
    ensures 16 * w * (d * s + j) + j * r <= -16
  {
    MulMono(j, s - 1, r);
    MulMono(d, -1, s);
    MulMono(d * s + j, -1, 16 * w);
  }

  lemma SlotsClear(c: Config, g: Geometry, stride: nat, k: nat, k': nat, j: nat)
    requires Sweeps(c, g, stride) && SlackFits(c, g, stride) && j < stride
    ensures !Overlap(16 * StrideSlot(g, stride, k) + Offset(c, j), 16 * StrideSlot(g, stride, k'))
  {
    SweepAddress(c, g, stride, k, j);
    Spread(k', 0, stride, g.linksPerLine, 0);
    var w, r := g.linksPerLine, c.bytesPerLine % 16;
    Difference(k, k', j, stride, w);
    if k >= k' { ClearBehind(k - k', j, stride, w, r); } else { ClearAhead(k - k', j, stride, w, r); }
  }

  /** Strided sweeps that stay inside the chain spare its ring, whatever the line size. */
  lemma StridedSpares(c: Config, g: Geometry, stride: nat, order: seq<nat>)
    requires Sweeps(c, g, stride) && (order == ForwardOrder(g, stride) || order == ReverseOrder(g, stride))
    requires StaysInside(c, g, order)
    ensures Spared(c, order)
  {
    StridedStaysInsideIff(c, g, stride, order);
    var fwd := ForwardOrder(g, stride);
    ReversedElements(fwd);
    forall y | y in order ensures !Touches(c, order, y) {
      var k' :| 0 <= k' < |fwd| && fwd[k'] == y;
      forall x, j | x in order && 0 <= j < DataCount(c) ensures !Overlap(16 * x + Offset(c, j), 16 * y) {
        var k :| 0 <= k < |fwd| && fwd[k] == x;
        SlotsClear(c, g, stride, k, k', j);
      }
    }
  }

  // ----- random rings

  /** The first link of the last line. */
  lemma LastLine(g: Geometry)
    requires WellFormed(g)
    ensures Slot(g, g.pagesPerChain - 1, g.linesPerPage - 1) + g.linksPerLine == g.linksPerChain
  {
    SlotOfLine(g, g.pagesPerChain - 1, g.linesPerPage - 1);
    assert (g.pagesPerChain - 1) * g.linesPerPage + (g.linesPerPage - 1) == g.linesPerChain - 1;
    assert (g.linesPerChain - 1) * g.linksPerLine + g.linksPerLine == g.linesPerChain * g.linksPerLine;
  }

  /** A ring through the last line has no room for a second line per hop. */
  lemma LastLineIff(c: Config, g: Geometry, order: seq<nat>)
    requires WellFormed(g) && g.linksPerLine == c.bytesPerLine / 16 && InMemory(order, g.linksPerChain)
    requires Slot(g, g.pagesPerChain - 1, g.linesPerPage - 1) in order
    ensures StaysInside(c, g, order) <==> DataCount(c) <= 1
  {
    if DataCount(c) <= 1 {
      OneAccessFits(c, g, order);
    } else {
      var x := Slot(g, g.pagesPerChain - 1, g.linesPerPage - 1);
      LastLine(g);
      OffsetIs(c, 1);
      assert x in order && 16 * x + Offset(c, 1) + 8 > 16 * g.linksPerChain;
    }
  }

  /** On a full random ring, for any line size, accesses stay inside exactly when a hop accesses at most one
      line: the "all" operations with a stride of 2 or more leave the chain. */
  lemma RandomStaysInsideIff(c: Config, g: Geometry, plan: Plan, mem: seq<Link>)
    requires PlanFits(g, plan) && PrimeFactors(plan) && FactorsCoprime(g, plan)
    requires g.linksPerLine == c.bytesPerLine / 16 && |mem| == g.linksPerChain
    ensures StaysInside(c, g, RandomOrder(g, plan)) <==> DataCount(c) <= 1
  {
    RandomTour(g, plan, mem, g.pagesPerChain - 1, g.linesPerPage - 1);
    LastLineIff(c, g, RandomOrder(g, plan));
  }
}
