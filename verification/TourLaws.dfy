/** The order of a random ring in terms of the values drawn: where it starts, and how it goes on. */
module TourLaws {
  import opened NumberTheory
  import opened Geometry
  import opened ChainInit

  lemma OffsetFirst(f: nat, o: nat, n: nat)
    requires o < n
    ensures AffineSeq(f, o, n)[0] == o
  {
    AffineAt(f, o, n, n, 0);
    DivModUnique(0, n, o);
  }

  /** The remainders of x and x + f are f apart, up to multiples. */
  lemma ApartBy(x: int, f: int, y: int, n: int)
    requires n > 0 && y == x + f
    ensures (y % n - x % n - f) % n == 0
  {
    var a, b := x / n, y / n;
    assert x == n * a + x % n && y == n * b + y % n;
    assert y % n - x % n - f == n * (a - b);
    MulMod(n, a - b);
  }

  lemma NextProduct(f: int, i: int)
    ensures f * (i + 1) == f * i + f
  {
  }

  lemma AffineStep(f: nat, o: nat, n: nat, i: nat) returns (x: nat, y: nat)
    requires n > 0
    ensures Affine(f, o, n, i) == x % n && Affine(f, o, n, i + 1) == y % n && y == x + f
  {
    x, y := f * i + o, f * (i + 1) + o;
    NextProduct(f, i);
  }

  lemma FactorApart(f: nat, o: nat, n: nat, i: nat)
    requires i + 1 < n
    ensures (AffineSeq(f, o, n)[i + 1] - AffineSeq(f, o, n)[i] - f) % n == 0
  {
    AffineAt(f, o, n, n, i);
    AffineAt(f, o, n, n, i + 1);
    var x, y := AffineStep(f, o, n, i);
    ApartBy(x, f, y, n);
  }

  /** Draws 0 and 1 are those of the chain; draws 2 + 2*i and 3 + 2*i those of its i-th page. */
  function FactorOf(table: seq<nat>, draw: nat): nat
    requires table != []
  {
    table[draw % |table|]
  }

  /** Position i*lines + j of the order is line l of page p. */
  predicate Stands(g: Geometry, order: seq<nat>, i: nat, j: nat, p: nat, l: nat) {
    && 0 <= i * g.linesPerPage + j < |order| && p < g.pagesPerChain && l < g.linesPerPage
    && order[i * g.linesPerPage + j] == Slot(g, p, l)
  }

  lemma StandsInTour(table: seq<nat>, g: Geometry, draws: seq<nat>, i: nat, j: nat) returns (p: nat, l: nat)
    requires table != [] && EnoughDraws(g, draws) && i < g.pagesPerChain && j < g.linesPerPage
    ensures var plan := PlanOf(table, g, draws);
      && Stands(g, RandomOrder(g, plan), i, j, p, l)
      && p == PageOrder(g, plan)[i] && l == LineOrders(g, plan)[i][j]
  {
    var plan := PlanOf(table, g, draws);
    PlanIsTour(g, plan);
    TourAt(g, PageOrder(g, plan), LineOrders(g, plan), g.pagesPerChain, i, j);
    p, l := PageOrder(g, plan)[i], LineOrders(g, plan)[i][j];
  }

  /** The i-th page of the tour starts on the line that its second draw gives, and the tour on the page that
      the second draw of the chain gives. */
  lemma PageStarts(table: seq<nat>, g: Geometry, draws: seq<nat>, i: nat) returns (p: nat)
    requires table != [] && EnoughDraws(g, draws) && i < g.pagesPerChain
    ensures Stands(g, RandomOrder(g, PlanOf(table, g, draws)), i, 0, p, draws[3 + 2 * i] % g.linesPerPage)
    ensures i == 0 ==> p == draws[1] % g.pagesPerChain
  {
    var plan, l := PlanOf(table, g, draws), 0;
    p, l := StandsInTour(table, g, draws, i, 0);
    OffsetFirst(plan.lineFactors[i], plan.lineOffsets[i], g.linesPerPage);
    OffsetFirst(plan.pageFactor, plan.pageOffset, g.pagesPerChain);
  }

  /** The next line of a page is a line factor further, modulo the lines of a page. */
  lemma NextLine(table: seq<nat>, g: Geometry, draws: seq<nat>, i: nat, j: nat) returns (p: nat, l: nat, l': nat)
    requires table != [] && EnoughDraws(g, draws) && i < g.pagesPerChain && j + 1 < g.linesPerPage
    ensures var order := RandomOrder(g, PlanOf(table, g, draws));
      Stands(g, order, i, j, p, l) && Stands(g, order, i, j + 1, p, l')
    ensures (l' - l - FactorOf(table, draws[2 + 2 * i])) % g.linesPerPage == 0
  {
    var plan := PlanOf(table, g, draws);
    p, l := StandsInTour(table, g, draws, i, j);
    var p';
    p', l' := StandsInTour(table, g, draws, i, j + 1);
    FactorApart(plan.lineFactors[i], plan.lineOffsets[i], g.linesPerPage, j);
  }

  /** The next page is the page factor further, modulo the pages of the chain. */
  lemma NextPage(table: seq<nat>, g: Geometry, draws: seq<nat>, i: nat) returns (p: nat, p': nat)
    requires table != [] && EnoughDraws(g, draws) && i + 1 < g.pagesPerChain
    ensures var order := RandomOrder(g, PlanOf(table, g, draws));
      && Stands(g, order, i, 0, p, draws[3 + 2 * i] % g.linesPerPage)
      && Stands(g, order, i + 1, 0, p', draws[5 + 2 * i] % g.linesPerPage)
    ensures (p' - p - FactorOf(table, draws[0])) % g.pagesPerChain == 0
  {
    var plan, l := PlanOf(table, g, draws), 0;
    p := PageStarts(table, g, draws, i);
    p' := PageStarts(table, g, draws, i + 1);
    FactorApart(plan.pageFactor, plan.pageOffset, g.pagesPerChain, i);
    var q, q';
    q, l := StandsInTour(table, g, draws, i, 0);
    q', l := StandsInTour(table, g, draws, i + 1, 0);
    SamePlace(g, RandomOrder(g, plan), i, 0, p, draws[3 + 2 * i] % g.linesPerPage, q, LineOrders(g, plan)[i][0]);
    SamePlace(g, RandomOrder(g, plan), i + 1, 0, p', draws[5 + 2 * i] % g.linesPerPage, q', l);
  }

  lemma SamePlace(g: Geometry, order: seq<nat>, i: nat, j: nat, p: nat, l: nat, p': nat, l': nat)
    requires WellFormed(g) && Stands(g, order, i, j, p, l) && Stands(g, order, i, j, p', l')
    ensures p == p' && l == l'
  {
    SlotInjective(g, p, l, p', l');
  }

  /** The root of a random ring, from the values drawn. */
  lemma RootDrawn(table: seq<nat>, g: Geometry, draws: seq<nat>)
    requires table != [] && EnoughDraws(g, draws)
    ensures RandomOrder(g, PlanOf(table, g, draws))[0] ==
      Slot(g, draws[1] % g.pagesPerChain, draws[3] % g.linesPerPage)
  {
    var p := PageStarts(table, g, draws, 0);
  }

  // ----- strided rings

  /** A forward ring starts at link 0 and goes up in steps of the stride; a reverse ring ends there and goes
      down, so it starts on the last line that a stride reaches. */
  lemma StridedSteps(g: Geometry, stride: nat, k: nat)
    requires WellFormed(g) && stride > 0 && k < CeilDiv(g.linesPerChain, stride)
    ensures var fwd, rev := ForwardOrder(g, stride), ReverseOrder(g, stride);
      && fwd[0] == 0 == rev[|rev| - 1] && rev[0] == (CeilDiv(g.linesPerChain, stride) - 1) * stride * g.linksPerLine
      && (k + 1 < |fwd| ==> StepsUp(fwd, k, stride * g.linksPerLine) && StepsDown(rev, k, stride * g.linksPerLine))
  {
    var n := CeilDiv(g.linesPerChain, stride);
    OneStride(g, stride, k);
    if k + 1 < n { OneStride(g, stride, n - 2 - k); }
  }

  predicate StepsUp(order: seq<nat>, k: nat, step: nat) { k + 1 < |order| && order[k + 1] == order[k] + step }

  predicate StepsDown(order: seq<nat>, k: nat, step: nat) { k + 1 < |order| && order[k] == order[k + 1] + step }

  lemma OneStride(g: Geometry, stride: nat, k: nat)
    ensures StrideSlot(g, stride, k + 1) - StrideSlot(g, stride, k) == stride * g.linksPerLine
  {
    assert (k + 1) * stride == k * stride + stride;
    Distribute(k * stride, stride, g.linksPerLine);
  }

  lemma Distribute(a: int, b: int, w: int)
    ensures (a + b) * w == a * w + b * w
  {
  }
}
