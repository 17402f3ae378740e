/** The three functions that lay a ring of links into chain memory. */
module ChainInit {
  import opened NumberTheory
  import opened Geometry
  import opened Ring

  // ----- a tour: pages in some order, and the lines of each page in some order

  predicate IsTour(g: Geometry, pages: seq<nat>, lines: seq<seq<nat>>) {
    && WellFormed(g) && |pages| == |lines| == g.pagesPerChain
    && (forall i :: 0 <= i < |pages| ==> pages[i] < g.pagesPerChain)
    && (forall i :: 0 <= i < |lines| ==> |lines[i]| == g.linesPerPage)
    && (forall i, j :: 0 <= i < |lines| && 0 <= j < |lines[i]| ==> lines[i][j] < g.linesPerPage)
  }

  /** Slots of the lines of one page. */
  function Block(g: Geometry, page: nat, lines: seq<nat>): (r: seq<nat>)
    ensures |r| == |lines| && forall j :: 0 <= j < |r| ==> r[j] == Slot(g, page, lines[j])
  {
    seq(|lines|, j requires 0 <= j < |lines| => Slot(g, page, lines[j]))
  }

  /** Build order of the first i pages: page by page, line by line. */
  function Tour(g: Geometry, pages: seq<nat>, lines: seq<seq<nat>>, i: nat): (r: seq<nat>)
    requires |pages| == |lines| && i <= |pages|
  {
    if i == 0 then [] else Tour(g, pages, lines, i - 1) + Block(g, pages[i - 1], lines[i - 1])
  }

  lemma BlockInMemory(g: Geometry, pages: seq<nat>, lines: seq<seq<nat>>, i: nat)
    requires IsTour(g, pages, lines) && i < |pages|
    ensures InMemory(Block(g, pages[i], lines[i]), g.linksPerChain)
  {
    forall j | 0 <= j < |lines[i]| ensures Slot(g, pages[i], lines[i][j]) < g.linksPerChain {
      SlotInChain(g, pages[i], lines[i][j]);
    }
  }

  lemma {:induction false} TourInMemory(g: Geometry, pages: seq<nat>, lines: seq<seq<nat>>, i: nat)
    requires IsTour(g, pages, lines) && i <= |pages|
    ensures InMemory(Tour(g, pages, lines, i), g.linksPerChain)
    ensures |Tour(g, pages, lines, i)| == i * g.linesPerPage
  {
    if i > 0 {
      TourInMemory(g, pages, lines, i - 1);
      BlockInMemory(g, pages, lines, i - 1);
      assert i * g.linesPerPage == (i - 1) * g.linesPerPage + g.linesPerPage;
    }
  }

  /** Position i * linesPerPage + j of a tour is line j of the i-th page: pages are not interleaved. */
  lemma {:induction false} TourAt(g: Geometry, pages: seq<nat>, lines: seq<seq<nat>>, n: nat, i: nat, j: nat)
    requires IsTour(g, pages, lines) && i < n <= |pages| && j < g.linesPerPage
    ensures 0 <= i * g.linesPerPage + j < |Tour(g, pages, lines, n)|
    ensures Tour(g, pages, lines, n)[i * g.linesPerPage + j] == Slot(g, pages[i], lines[i][j])
  {
    TourInMemory(g, pages, lines, n - 1);
    TourInMemory(g, pages, lines, n);
    LineBound(i, j, n, g.linesPerPage);
    if i < n - 1 {
      TourAt(g, pages, lines, n - 1, i, j);
    }
  }

  lemma NoRepeatAppend(a: seq<nat>, b: seq<nat>)
    ensures NoRepeat(a + b) <==> NoRepeat(a) && NoRepeat(b) && Elements(a) !! Elements(b)
  {
    var s := a + b;
    assert forall k :: 0 <= k < |a| ==> s[k] == a[k];
    assert forall k :: 0 <= k < |b| ==> s[|a| + k] == b[k];
    if NoRepeat(s) {
      forall x | x in a ensures x !in b {
        var i :| 0 <= i < |a| && a[i] == x;
        forall j | 0 <= j < |b| ensures b[j] != x { assert s[i] != s[|a| + j]; }
      }
    } else {
      var i, j :| 0 <= i < j < |s| && s[i] == s[j];
      if j < |a| {
        assert a[i] == a[j];
      } else if i >= |a| {
        assert b[i - |a|] == b[j - |a|];
      } else {
        assert a[i] in Elements(a) && b[j - |a|] in Elements(b);
      }
    }
  }

  lemma BlockNoRepeat(g: Geometry, pages: seq<nat>, lines: seq<seq<nat>>, i: nat)
    requires IsTour(g, pages, lines) && i < |pages|
    ensures NoRepeat(Block(g, pages[i], lines[i])) <==> NoRepeat(lines[i])
  {
    var block, ls := Block(g, pages[i], lines[i]), lines[i];
    if NoRepeat(ls) {
      forall a, b | 0 <= a < b < |block| ensures block[a] != block[b] {
        if block[a] == block[b] {
          SlotInjective(g, pages[i], ls[a], pages[i], ls[b]);
          assert false;
        }
      }
    } else {
      var a, b :| 0 <= a < b < |ls| && ls[a] == ls[b];
      assert block[a] == block[b];
    }
  }

  lemma {:induction false} TourElement(g: Geometry, pages: seq<nat>, lines: seq<seq<nat>>, n: nat, x: nat)
    returns (i: nat, j: nat)
    requires IsTour(g, pages, lines) && n <= |pages| && x in Tour(g, pages, lines, n)
    ensures i < n && j < g.linesPerPage && x == Slot(g, pages[i], lines[i][j])
  {
    var block := Block(g, pages[n - 1], lines[n - 1]);
    if x in block {
      i := n - 1;
      j :| 0 <= j < |block| && block[j] == x;
    } else {
      i, j := TourElement(g, pages, lines, n - 1, x);
    }
  }

  lemma {:induction false} TourHas(g: Geometry, pages: seq<nat>, lines: seq<seq<nat>>, n: nat, i: nat, j: nat)
    requires IsTour(g, pages, lines) && i < n <= |pages| && j < g.linesPerPage
    ensures Slot(g, pages[i], lines[i][j]) in Tour(g, pages, lines, n)
  {
    var block := Block(g, pages[n - 1], lines[n - 1]);
    if i < n - 1 {
      TourHas(g, pages, lines, n - 1, i, j);
    } else {
      assert block[j] in block;
    }
  }

  /** A new page adds only new slots, provided that it was not on the tour before. */
  lemma FreshPageDisjoint(g: Geometry, pages: seq<nat>, lines: seq<seq<nat>>, n: nat)
    requires IsTour(g, pages, lines) && n < |pages| && NoRepeat(pages)
    ensures Elements(Tour(g, pages, lines, n)) !! Elements(Block(g, pages[n], lines[n]))
  {
    var block := Block(g, pages[n], lines[n]);
    forall x | x in Tour(g, pages, lines, n) ensures x !in block {
      if x in block {
        var i, j := TourElement(g, pages, lines, n, x);
        var k :| 0 <= k < |block| && block[k] == x;
        SlotInjective(g, pages[i], lines[i][j], pages[n], lines[n][k]);
        assert false;
      }
    }
  }

  lemma {:induction false} TourNoRepeat(g: Geometry, pages: seq<nat>, lines: seq<seq<nat>>, n: nat)
    requires IsTour(g, pages, lines) && n <= |pages| && NoRepeat(pages)
    requires forall i :: 0 <= i < n ==> NoRepeat(lines[i])
    ensures NoRepeat(Tour(g, pages, lines, n))
  {
    if n > 0 {
      TourNoRepeat(g, pages, lines, n - 1);
      BlockNoRepeat(g, pages, lines, n - 1);
      FreshPageDisjoint(g, pages, lines, n - 1);
      NoRepeatAppend(Tour(g, pages, lines, n - 1), Block(g, pages[n - 1], lines[n - 1]));
    }
  }

  lemma {:induction false} RepeatedLine(g: Geometry, pages: seq<nat>, lines: seq<seq<nat>>, n: nat, i: nat)
    requires IsTour(g, pages, lines) && i < n <= |pages| && !NoRepeat(lines[i])
    ensures !NoRepeat(Tour(g, pages, lines, n))
  {
    NoRepeatAppend(Tour(g, pages, lines, n - 1), Block(g, pages[n - 1], lines[n - 1]));
    if i < n - 1 {
      RepeatedLine(g, pages, lines, n - 1, i);
    } else {
      BlockNoRepeat(g, pages, lines, i);
    }
  }

  /** Both visits of a repeated page cover all its lines, so the second repeats a line of the first. */
  lemma {:induction false} RepeatedPage(g: Geometry, pages: seq<nat>, lines: seq<seq<nat>>, n: nat, a: nat, b: nat)
    requires IsTour(g, pages, lines) && a < b < n <= |pages| && pages[a] == pages[b] && NoRepeat(lines[b])
    ensures !NoRepeat(Tour(g, pages, lines, n))
  {
    var before, block := Tour(g, pages, lines, n - 1), Block(g, pages[n - 1], lines[n - 1]);
    NoRepeatAppend(before, block);
    if b < n - 1 {
      RepeatedPage(g, pages, lines, n - 1, a, b);
    } else {
      TourHas(g, pages, lines, n - 1, a, 0);
      Surjective(lines[b], lines[a][0]);
      var j :| 0 <= j < |lines[b]| && lines[b][j] == lines[a][0];
      assert block[j] in Elements(block) && block[j] in Elements(before);
    }
  }

  /** A tour appends no slot twice exactly when no page and no line of a page is repeated. */
  lemma TourNoRepeatIff(g: Geometry, pages: seq<nat>, lines: seq<seq<nat>>)
    requires IsTour(g, pages, lines)
    ensures NoRepeat(Tour(g, pages, lines, |pages|)) <==>
            NoRepeat(pages) && forall i :: 0 <= i < |pages| ==> NoRepeat(lines[i])
  {
    if i :| 0 <= i < |pages| && !NoRepeat(lines[i]) {
      RepeatedLine(g, pages, lines, |pages|, i);
    } else if a, b :| 0 <= a < b < |pages| && pages[a] == pages[b] {
      RepeatedPage(g, pages, lines, |pages|, a, b);
    } else {
      TourNoRepeat(g, pages, lines, |pages|);
    }
  }

  /** Without repeats a tour visits every line of the chain. */
  lemma TourCovers(g: Geometry, pages: seq<nat>, lines: seq<seq<nat>>, page: nat, line: nat)
    requires IsTour(g, pages, lines) && page < g.pagesPerChain && line < g.linesPerPage
    requires NoRepeat(Tour(g, pages, lines, |pages|))
    ensures Slot(g, page, line) in Tour(g, pages, lines, |pages|)
  {
    TourNoRepeatIff(g, pages, lines);
    Surjective(pages, page);
    var i :| 0 <= i < |pages| && pages[i] == page;
    Surjective(lines[i], line);
    var j :| 0 <= j < |lines[i]| && lines[i][j] == line;
    TourHas(g, pages, lines, |pages|, i, j);
  }

  // ----- random order: the draws decide the page order and, per page, the line order

  /** The factors and offsets that one chain draws. */
  datatype Plan = Plan(pageFactor: nat, pageOffset: nat, lineFactors: seq<nat>, lineOffsets: seq<nat>)

  predicate PlanFits(g: Geometry, plan: Plan) {
    WellFormed(g) && |plan.lineFactors| == |plan.lineOffsets| == g.pagesPerChain
  }

  function PageOrder(g: Geometry, plan: Plan): (r: seq<nat>)
    requires PlanFits(g, plan)
  {
    AffineSeq(plan.pageFactor, plan.pageOffset, g.pagesPerChain)
  }

  function LineOrders(g: Geometry, plan: Plan): (r: seq<seq<nat>>)
    requires PlanFits(g, plan)
    ensures |r| == g.pagesPerChain
    ensures forall i :: 0 <= i < |r| ==> r[i] == AffineSeq(plan.lineFactors[i], plan.lineOffsets[i], g.linesPerPage)
  {
    seq(g.pagesPerChain, i requires 0 <= i < g.pagesPerChain =>
      AffineSeq(plan.lineFactors[i], plan.lineOffsets[i], g.linesPerPage))
  }

  lemma PlanIsTour(g: Geometry, plan: Plan)
    requires PlanFits(g, plan)
    ensures IsTour(g, PageOrder(g, plan), LineOrders(g, plan))
  {
  }

  function RandomOrder(g: Geometry, plan: Plan): (r: seq<nat>)
    requires PlanFits(g, plan)
    ensures |r| == g.linesPerChain > 0 && InMemory(r, g.linksPerChain)
  {
    PlanIsTour(g, plan);
    TourInMemory(g, PageOrder(g, plan), LineOrders(g, plan), g.pagesPerChain);
    MulMono(1, g.pagesPerChain, g.linesPerPage);
    Tour(g, PageOrder(g, plan), LineOrders(g, plan), g.pagesPerChain)
  }

  ghost predicate PrimeFactors(plan: Plan) {
    Prime(plan.pageFactor) && forall i :: 0 <= i < |plan.lineFactors| ==> Prime(plan.lineFactors[i])
  }

  predicate Coprime(n: nat, prime: nat) {
    prime > 0 && n % prime != 0
  }

  /** No factor divides the size of the index range that it permutes. */
  predicate FactorsCoprime(g: Geometry, plan: Plan) {
    && Coprime(g.pagesPerChain, plan.pageFactor)
    && forall i :: 0 <= i < |plan.lineFactors| ==> Coprime(g.linesPerPage, plan.lineFactors[i])
  }

  lemma DrawnNoRepeatIff(f: nat, offset: nat, n: nat)
    requires n > 0 && Prime(f)
    ensures NoRepeat(AffineSeq(f, offset, n)) <==> Coprime(n, f)
  {
    AffinePermutationIff(f, offset, n);
  }

  lemma LinesNoRepeatIff(g: Geometry, plan: Plan)
    requires PlanFits(g, plan) && PrimeFactors(plan)
    ensures (forall i :: 0 <= i < g.pagesPerChain ==> NoRepeat(LineOrders(g, plan)[i])) <==>
            (forall i :: 0 <= i < |plan.lineFactors| ==> Coprime(g.linesPerPage, plan.lineFactors[i]))
  {
    var lines := LineOrders(g, plan);
    forall i | 0 <= i < g.pagesPerChain
      ensures NoRepeat(lines[i]) <==> Coprime(g.linesPerPage, plan.lineFactors[i])
    {
      DrawnNoRepeatIff(plan.lineFactors[i], plan.lineOffsets[i], g.linesPerPage);
    }
  }

  lemma RandomNoRepeatIff(g: Geometry, plan: Plan)
    requires PlanFits(g, plan) && PrimeFactors(plan)
    ensures NoRepeat(RandomOrder(g, plan)) <==> FactorsCoprime(g, plan)
  {
    PlanIsTour(g, plan);
    TourNoRepeatIff(g, PageOrder(g, plan), LineOrders(g, plan));
    DrawnNoRepeatIff(plan.pageFactor, plan.pageOffset, g.pagesPerChain);
    LinesNoRepeatIff(g, plan);
  }

  /** The walk from root back to root has as many hops as `random_mem_init` counted operations exactly
      when no drawn factor divides the range it permutes. */
  lemma RandomRingFullIff(g: Geometry, plan: Plan, mem: seq<Link>)
    requires PlanFits(g, plan) && PrimeFactors(plan) && |mem| == g.linksPerChain
    ensures var order := RandomOrder(g, plan);
      && FirstReturn(Closed(mem, order), order[0], RingLength(order))
      && (RingLength(order) == g.linesPerChain <==> FactorsCoprime(g, plan))
  {
    var order := RandomOrder(g, plan);
    ReturnsToRoot(mem, order);
    FullRingIff(order);
    RandomNoRepeatIff(g, plan);
  }

  /** In the coprime case hop i * linesPerPage + j stands on the j-th drawn line of the i-th drawn page:
      each page is finished before the next is entered, and every line of the chain is visited. */
  lemma RandomTour(g: Geometry, plan: Plan, mem: seq<Link>, i: nat, j: nat)
    requires PlanFits(g, plan) && PrimeFactors(plan) && |mem| == g.linksPerChain && FactorsCoprime(g, plan)
    requires i < g.pagesPerChain && j < g.linesPerPage
    ensures var order := RandomOrder(g, plan);
      && 0 <= i * g.linesPerPage + j < |order|
      && Follow(Closed(mem, order), order[0], i * g.linesPerPage + j)
         == Slot(g, PageOrder(g, plan)[i], LineOrders(g, plan)[i][j])
      && Slot(g, i, j) in order
  {
    PlanIsTour(g, plan);
    RandomNoRepeatIff(g, plan);
    TourAt(g, PageOrder(g, plan), LineOrders(g, plan), g.pagesPerChain, i, j);
    HopLands(mem, RandomOrder(g, plan), i * g.linesPerPage + j);
    TourCovers(g, PageOrder(g, plan), LineOrders(g, plan), i, j);
  }

  lemma HopLands(mem: seq<Link>, order: seq<nat>, k: nat)
    requires InMemory(order, |mem|) && NoRepeat(order) && k < |order|
    ensures Follow(Closed(mem, order), order[0], k) == order[k]
  {
    FollowIsWalk(mem, order, order[0], k);
    WalkVisits(order, 0, k);
  }

  predicate EnoughDraws(g: Geometry, draws: seq<nat>) {
    WellFormed(g) && |draws| == 2 + 2 * g.pagesPerChain
  }

  /** A plan from the values that `random()` returned, in the order in which they are drawn. */
  function PlanOf(table: seq<nat>, g: Geometry, draws: seq<nat>): (plan: Plan)
    requires table != [] && EnoughDraws(g, draws)
    ensures PlanFits(g, plan)
  {
    Plan(table[draws[0] % |table|], draws[1] % g.pagesPerChain,
         seq(g.pagesPerChain, i requires 0 <= i < g.pagesPerChain => table[draws[2 + 2 * i] % |table|]),
         seq(g.pagesPerChain, i requires 0 <= i < g.pagesPerChain => draws[3 + 2 * i] % g.linesPerPage))
  }

  /** The i-th index of an affine order. */
  method IndexAt(factor: nat, offset: nat, n: nat, i: nat) returns (x: nat)
    requires i < n
    ensures x < n && x == AffineSeq(factor, offset, n)[i]
  {
    x := (factor * i + offset) % n;
    AffineAt(factor, offset, n, n, i);
  }

  /** First critical section: the page factor and offset. */
  method DrawPage(table: seq<nat>, g: Geometry, draws: seq<nat>) returns (factor: nat, offset: nat)
    requires table != [] && EnoughDraws(g, draws)
    ensures factor == PlanOf(table, g, draws).pageFactor && offset == PlanOf(table, g, draws).pageOffset
  {
    factor := table[draws[0] % |table|];
    offset := draws[1] % g.pagesPerChain;
  }

  /** Critical section of the i-th page: its line factor and offset. */
  method DrawLine(table: seq<nat>, g: Geometry, draws: seq<nat>, i: nat) returns (factor: nat, offset: nat)
    requires table != [] && EnoughDraws(g, draws) && i < g.pagesPerChain
    ensures factor == PlanOf(table, g, draws).lineFactors[i] && offset == PlanOf(table, g, draws).lineOffsets[i]
  {
    factor := table[draws[2 + 2 * i] % |table|];
    offset := draws[3 + 2 * i] % g.linesPerPage;
  }

  method RandomMemInit(g: Geometry, mem: array<Link>, draws: seq<nat>) returns (root: int, ops: nat)
    requires EnoughDraws(g, draws) && mem.Length == g.linksPerChain
    modifies mem
    ensures mem[..] == Closed(old(mem[..]), RandomOrder(g, PlanOf(PRIME_TABLE, g, draws)))
    ensures root == RandomOrder(g, PlanOf(PRIME_TABLE, g, draws))[0] && ops == g.linesPerChain
  {
    root, ops := MemInitFrom(PRIME_TABLE, g, mem, draws, PlanOf(PRIME_TABLE, g, draws));
  }

  /** The tour grows by the block of the next page. */
  lemma TourNext(g: Geometry, plan: Plan, i: nat, page: nat, factor: nat, offset: nat) returns (done: seq<nat>)
    requires PlanFits(g, plan) && i < g.pagesPerChain && page == PageOrder(g, plan)[i]
    requires factor == plan.lineFactors[i] && offset == plan.lineOffsets[i]
    ensures done == Tour(g, PageOrder(g, plan), LineOrders(g, plan), i)
    ensures Tour(g, PageOrder(g, plan), LineOrders(g, plan), i + 1) ==
      done + Block(g, page, AffineSeq(factor, offset, g.linesPerPage))
  {
    done := Tour(g, PageOrder(g, plan), LineOrders(g, plan), i);
  }

  method MemInitFrom(table: seq<nat>, g: Geometry, mem: array<Link>, draws: seq<nat>, ghost plan: Plan)
    returns (root: int, ops: nat)
    requires table != [] && EnoughDraws(g, draws) && mem.Length == g.linksPerChain && plan == PlanOf(table, g, draws)
    modifies mem
    ensures mem[..] == Closed(old(mem[..]), RandomOrder(g, plan))
    ensures root == RandomOrder(g, plan)[0] && ops == g.linesPerChain
  {
    ghost var mem0, pages, lines := mem[..], PageOrder(g, plan), LineOrders(g, plan);
    root := -1;
    var prev := -1;
    ops := 0;
    var pageFactor, pageOffset := DrawPage(table, g, draws);
    for i := 0 to g.pagesPerChain
      invariant ops == |Tour(g, pages, lines, i)|
      invariant Building(mem[..], mem0, Tour(g, pages, lines, i), root, prev)
    {
      var page := IndexAt(pageFactor, pageOffset, g.pagesPerChain, i);
      var lineFactor, lineOffset := DrawLine(table, g, draws, i);
      ghost var done := TourNext(g, plan, i, page, lineFactor, lineOffset);
      root, prev, ops := AppendPage(g, mem, page, lineFactor, lineOffset, root, prev, ops, mem0, done);
    }
    mem[prev] := mem[prev].(next := root);
  }

  /** The inner loop: append the lines of one page. */
  method AppendPage(g: Geometry, mem: array<Link>, page: nat, lineFactor: nat, lineOffset: nat,
                    root0: int, prev0: int, ops0: nat, ghost mem0: seq<Link>, ghost done: seq<nat>)
    returns (root: int, prev: int, ops: nat)
    requires WellFormed(g) && page < g.pagesPerChain && mem.Length == |mem0| == g.linksPerChain
    requires Building(mem[..], mem0, done, root0, prev0)
    modifies mem
    ensures var block := Block(g, page, AffineSeq(lineFactor, lineOffset, g.linesPerPage));
      Building(mem[..], mem0, done + block, root, prev) && ops == ops0 + |block|
  {
    root, prev, ops := root0, prev0, ops0;
    ghost var block := Block(g, page, AffineSeq(lineFactor, lineOffset, g.linesPerPage));
    assert done + block[..0] == done;
    for j := 0 to g.linesPerPage
      invariant ops == ops0 + j
      invariant Building(mem[..], mem0, done + block[..j], root, prev)
    {
      var lineWithinPage := IndexAt(lineFactor, lineOffset, g.linesPerPage, j);
      var link := page * g.linksPerPage + lineWithinPage * g.linksPerLine;
      SlotInChain(g, page, lineWithinPage);
      assert done + block[..j + 1] == (done + block[..j]) + [link];
      root, prev := AppendLink(mem, root, prev, link, mem0, done + block[..j]);
      ops := ops + 1;
    }
    assert block[..g.linesPerPage] == block;
  }

  // ----- strided order

  function StrideSlot(g: Geometry, stride: nat, k: nat): (x: nat) {
    k * stride * g.linksPerLine
  }

  function ForwardOrder(g: Geometry, stride: nat): (r: seq<nat>)
    requires WellFormed(g) && stride > 0
    ensures |r| == CeilDiv(g.linesPerChain, stride) > 0 && InMemory(r, g.linksPerChain)
    ensures forall k :: 0 <= k < |r| ==> r[k] == StrideSlot(g, stride, k)
  {
    var n := CeilDiv(g.linesPerChain, stride);
    StrideCount(g, stride);
    forall k | 0 <= k < n ensures StrideSlot(g, stride, k) < g.linksPerChain {
      StrideInChain(g, stride, k);
    }
    seq(n, k requires 0 <= k < n => StrideSlot(g, stride, k))
  }

  lemma StrideCount(g: Geometry, stride: nat)
    requires WellFormed(g) && stride > 0
    ensures g.linesPerChain > 0 && CeilDiv(g.linesPerChain, stride) > 0
  {
    MulMono(1, g.pagesPerChain, g.linesPerPage);
    CeilDivLeast(g.linesPerChain, stride, 0);
  }

  lemma StrideInChain(g: Geometry, stride: nat, k: nat)
    requires WellFormed(g) && stride > 0 && k < CeilDiv(g.linesPerChain, stride)
    ensures k * stride < g.linesPerChain && StrideSlot(g, stride, k) < g.linksPerChain
  {
    CeilDivLeast(g.linesPerChain, stride, k);
    MulMono(0, k, stride);
    LineBound(k * stride, 0, g.linesPerChain, g.linksPerLine);
  }

  lemma StrideInside(g: Geometry, stride: nat, k: nat)
    requires stride > 0
    ensures k * stride < g.linesPerChain <==> k < CeilDiv(g.linesPerChain, stride)
  {
    CeilDivLeast(g.linesPerChain, stride, k);
  }

  lemma StrideSlotGrows(g: Geometry, stride: nat, a: nat, b: nat)
    requires WellFormed(g) && stride > 0 && a < b
    ensures StrideSlot(g, stride, a) < StrideSlot(g, stride, b)
  {
    MulMono(a + 1, b, stride);
    var x, y := a * stride, b * stride;
    assert x < y by { assert (a + 1) * stride == x + stride; }
    MulMono(x + 1, y, g.linksPerLine);
    assert (x + 1) * g.linksPerLine == x * g.linksPerLine + g.linksPerLine;
  }

  lemma ForwardNoRepeat(g: Geometry, stride: nat)
    requires WellFormed(g) && stride > 0
    ensures NoRepeat(ForwardOrder(g, stride))
  {
    var order := ForwardOrder(g, stride);
    forall a, b | 0 <= a < b < |order| ensures order[a] != order[b] {
      StrideSlotGrows(g, stride, a, b);
    }
  }

  function ReverseOrder(g: Geometry, stride: nat): (r: seq<nat>)
    requires WellFormed(g) && stride > 0
    ensures |r| == CeilDiv(g.linesPerChain, stride) > 0 && InMemory(r, g.linksPerChain)
  {
    Reversed(ForwardOrder(g, stride))
  }

  /** Same slots, same length, and each ring undoes the other, wrap-around included. */
  lemma ReverseInvertsForward(g: Geometry, stride: nat, mem: seq<Link>, x: nat)
    requires WellFormed(g) && stride > 0 && |mem| == g.linksPerChain && x in ForwardOrder(g, stride)
    ensures var fwd, rev := ForwardOrder(g, stride), ReverseOrder(g, stride);
      && Elements(rev) == Elements(fwd)
      && RingLength(fwd) == RingLength(rev) == CeilDiv(g.linesPerChain, stride)
      && Follow(Closed(mem, rev), Follow(Closed(mem, fwd), x, 1), 1) == x
      && Follow(Closed(mem, fwd), Follow(Closed(mem, rev), x, 1), 1) == x
  {
    ForwardNoRepeat(g, stride);
    RingsInverse(ForwardOrder(g, stride), mem, x);
  }

  lemma RingsInverse(fwd: seq<nat>, mem: seq<Link>, x: nat)
    requires fwd != [] && InMemory(fwd, |mem|) && NoRepeat(fwd) && x in fwd
    ensures var rev := Reversed(fwd);
      && InMemory(rev, |mem|) && Elements(rev) == Elements(fwd) && RingLength(fwd) == RingLength(rev) == |fwd|
      && Follow(Closed(mem, rev), Follow(Closed(mem, fwd), x, 1), 1) == x
      && Follow(Closed(mem, fwd), Follow(Closed(mem, rev), x, 1), 1) == x
  {
    var rev := Reversed(fwd);
    ReversedElements(fwd);
    FullRingIff(fwd);
    FullRingIff(rev);
    ReversedUndoes(fwd, x);
    OneHop(mem, fwd, x);
    OneHop(mem, rev, x);
    OneHop(mem, rev, Successor(fwd, x));
    OneHop(mem, fwd, Successor(rev, x));
  }

  lemma OneHop(mem: seq<Link>, order: seq<nat>, x: nat)
    requires order != [] && InMemory(order, |mem|) && x in order
    ensures Follow(Closed(mem, order), x, 1) == Successor(order, x)
  {
    FollowIsWalk(mem, order, x, 1);
    assert Walk(order, x, 0) == x;
  }

  method ForwardMemInit(g: Geometry, mem: array<Link>, stride: int) returns (root: int, ops: nat)
    requires WellFormed(g) && 0 < stride && mem.Length == g.linksPerChain
    modifies mem
    ensures mem[..] == Closed(old(mem[..]), ForwardOrder(g, stride))
    ensures root == ForwardOrder(g, stride)[0] && ops == CeilDiv(g.linesPerChain, stride)
  {
    ghost var mem0, order := mem[..], ForwardOrder(g, stride);
    root := -1;
    var prev := -1;
    ops := 0;
    var i := 0;
    while i < g.linesPerChain
      invariant i == ops * stride && ops <= |order|
      invariant Building(mem[..], mem0, order[..ops], root, prev)
      decreases g.linesPerChain - i
    {
      StrideInside(g, stride, ops);
      var link := i * g.linksPerLine;
      assert link == StrideSlot(g, stride, ops) == order[ops];
      assert order[..ops + 1] == order[..ops] + [link];
      root, prev := AppendLink(mem, root, prev, link, mem0, order[..ops]);
      StepDown(ops + 1, stride);
      ops := ops + 1;
      i := i + stride;
    }
    StrideInside(g, stride, ops);
    assert order[..ops] == order;
    mem[prev] := mem[prev].(next := root);
  }

  method ReverseMemInit(g: Geometry, mem: array<Link>, stride: int) returns (root: int, ops: nat)
    requires WellFormed(g) && stride < 0 && mem.Length == g.linksPerChain
    modifies mem
    ensures mem[..] == Closed(old(mem[..]), ReverseOrder(g, -stride))
    ensures root == ReverseOrder(g, -stride)[0] && ops == CeilDiv(g.linesPerChain, -stride)
  {
    var step := -stride;
    ghost var mem0, order := mem[..], ReverseOrder(g, step);
    root := -1;
    var prev := -1;
    ops := 0;
    var i := FindLast(g, step);
    ghost var counters := Counters(g, step);
    while 0 <= i
      invariant ops <= |order| && i == counters[ops]
      invariant Building(mem[..], mem0, order[..ops], root, prev)
      decreases i
    {
      var link := i * g.linksPerLine;
      assert order[..ops + 1] == order[..ops] + [link];
      root, prev := AppendLink(mem, root, prev, link, mem0, order[..ops]);
      ops := ops + 1;
      i := i - step;
    }
    assert order[..ops] == order;
    mem[prev] := mem[prev].(next := root);
  }

  /** The values that the counter of the reverse init takes, the last one below 0. */
  lemma Counters(g: Geometry, step: nat) returns (counters: seq<int>)
    requires WellFormed(g) && step > 0
    ensures var order := ReverseOrder(g, step);
      && |counters| == |order| + 1 && counters[0] == (|order| - 1) * step && counters[|order|] < 0
      && forall k :: 0 <= k < |order| ==>
           0 <= counters[k] && counters[k + 1] == counters[k] - step && counters[k] * g.linksPerLine == order[k]
  {
    var order := ReverseOrder(g, step);
    var n := |order|;
    counters := seq(n + 1, k => (n - 1 - k) * step);
    StillInside(-1, step);
    forall k | 0 <= k < n
      ensures 0 <= counters[k] && counters[k + 1] == counters[k] - step && counters[k] * g.linksPerLine == order[k]
    {
      CounterAt(g, step, k, counters[k], counters[k + 1]);
    }
  }

  lemma CounterAt(g: Geometry, step: nat, k: nat, i: int, i': int)
    requires WellFormed(g) && step > 0 && k < |ReverseOrder(g, step)|
    requires i == (|ReverseOrder(g, step)| - 1 - k) * step && i' == (|ReverseOrder(g, step)| - 1 - (k + 1)) * step
    ensures 0 <= i && i' == i - step && i * g.linksPerLine == ReverseOrder(g, step)[k]
  {
    var m := |ReverseOrder(g, step)| - 1 - k;
    StillInside(m, step);
    StepDown(m, step);
    assert ReverseOrder(g, step)[k] == StrideSlot(g, step, m);
  }

  lemma StillInside(k: int, step: nat)
    requires step > 0
    ensures 0 <= k * step <==> 0 <= k
  {
    if k < 0 { MulMono(k, -1, step); } else { MulMono(0, k, step); }
  }

  lemma StepDown(k: int, step: nat)
    ensures (k - 1) * step == k * step - step
  {
  }

  /** A counter of the strided loops, inside the chain. */
  lemma CounterInside(lines: nat, stride: nat, k: nat, i: nat)
    requires stride > 0 && i == k * stride
    ensures i < lines <==> k < CeilDiv(lines, stride)
    ensures i + stride == (k + 1) * stride
  {
    CeilDivLeast(lines, stride, k);
  }

  /** Last multiple of the stride inside the chain. */
  method FindLast(g: Geometry, stride: nat) returns (last: int)
    requires WellFormed(g) && stride > 0
    ensures last == (CeilDiv(g.linesPerChain, stride) - 1) * stride
  {
    StrideCount(g, stride);
    last := 0;
    var i := 0;
    ghost var k, n := 0, CeilDiv(g.linesPerChain, stride);
    while i < g.linesPerChain
      invariant i == k * stride && k <= n
      invariant k > 0 ==> last == (k - 1) * stride
      decreases g.linesPerChain - i
    {
      CounterInside(g.linesPerChain, stride, k, i);
      last := i;
      i := i + stride;
      k := k + 1;
    }
    CounterInside(g.linesPerChain, stride, k, i);
  }

  // ----- 32-bit intermediates

  const INT_MAX := 0x7fff_ffff

  /** The index expression `factor*i + offset` of a range of n never leaves `int`, whatever is drawn,
      exactly when n is at most 13094413. */
  lemma AffineFitsIntIff(n: nat)
    requires n > 0
    ensures (forall f: nat, o: nat, i: nat :: f in PRIME_TABLE && o < n && i < n ==> AffineFits(f, o, i))
            <==> n <= 13094413
  {
    if n <= 13094413 {
      forall f: nat, o: nat, i: nat | f in PRIME_TABLE && o < n && i < n ensures AffineFits(f, o, i) {
        var k :| 0 <= k < |PRIME_TABLE| && PRIME_TABLE[k] == f;
        PrimeTableIsPrime(k);
        MulMono(f, 163, i);
      }
    } else {
      assert PRIME_TABLE[28] == 163;
      assert !AffineFits(163, n - 1, n - 1);
    }
  }

  predicate AffineFits(f: nat, o: nat, i: nat) {
    f * i + o <= INT_MAX
  }

  /** The strided loop counters stay below 2^31, the final one included, when lines and stride add up to at
      most 2^31. */
  lemma StrideFitsInt(lines: nat, stride: nat, k: nat)
    requires stride > 0 && lines + stride <= INT_MAX + 1 && k <= CeilDiv(lines, stride)
    ensures k * stride <= INT_MAX
  {
    if k > 0 {
      CeilDivLeast(lines, stride, k - 1);
      assert k * stride == (k - 1) * stride + stride;
    }
  }
}
