/** Which geometries give random rings through every line, whatever is drawn. */
module FullRings {
  import opened NumberTheory
  import opened Geometry
  import opened Ring
  import opened ChainInit

  ghost predicate AllPrime(table: seq<nat>) { forall k :: 0 <= k < |table| ==> Prime(table[k]) }

  lemma PlanIsPrime(table: seq<nat>, g: Geometry, draws: seq<nat>)
    requires table != [] && AllPrime(table) && EnoughDraws(g, draws)
    ensures PrimeFactors(PlanOf(table, g, draws))
  {
  }

  /** The ring that the draws give has as many hops as `random_mem_init` counts. */
  predicate FullRing(table: seq<nat>, g: Geometry, draws: seq<nat>)
    requires table != [] && EnoughDraws(g, draws)
  {
    RingLength(RandomOrder(g, PlanOf(table, g, draws))) == g.linesPerChain
  }

  lemma DrawnFullIff(table: seq<nat>, g: Geometry, draws: seq<nat>)
    requires table != [] && AllPrime(table) && EnoughDraws(g, draws)
    ensures FullRing(table, g, draws) <==> FactorsCoprime(g, PlanOf(table, g, draws))
  {
    PlanIsPrime(table, g, draws);
    RandomNoRepeatIff(g, PlanOf(table, g, draws));
    FullRingIff(RandomOrder(g, PlanOf(table, g, draws)));
  }

  /** No entry of the table divides the number of pages or of lines. */
  predicate NoEntryDivides(table: seq<nat>, g: Geometry) {
    forall k :: 0 <= k < |table| ==> Coprime(g.pagesPerChain, table[k]) && Coprime(g.linesPerPage, table[k])
  }

  /** Draws that pick entry k at position n and entry 0 elsewhere. */
  function DrawsAt(g: Geometry, n: nat, k: nat): (draws: seq<nat>)
    requires WellFormed(g)
    ensures EnoughDraws(g, draws) && forall i :: 0 <= i < |draws| ==> draws[i] == if i == n then k else 0
  {
    seq(2 + 2 * g.pagesPerChain, i => if i == n then k else 0)
  }

  lemma PicksPage(table: seq<nat>, g: Geometry, k: nat)
    requires WellFormed(g) && k < |table|
    ensures PlanOf(table, g, DrawsAt(g, 0, k)).pageFactor == table[k]
  {
    DivModUnique(0, |table|, k);
  }

  lemma PicksLine(table: seq<nat>, g: Geometry, k: nat)
    requires WellFormed(g) && k < |table|
    ensures PlanOf(table, g, DrawsAt(g, 2, k)).lineFactors[0] == table[k]
  {
    DivModUnique(0, |table|, k);
  }

  lemma SomeDrawShort(table: seq<nat>, g: Geometry, k: nat) returns (draws: seq<nat>)
    requires WellFormed(g) && AllPrime(table) && k < |table|
    requires !Coprime(g.pagesPerChain, table[k]) || !Coprime(g.linesPerPage, table[k])
    ensures EnoughDraws(g, draws) && !FullRing(table, g, draws)
  {
    if !Coprime(g.pagesPerChain, table[k]) {
      draws := DrawsAt(g, 0, k);
      PicksPage(table, g, k);
    } else {
      draws := DrawsAt(g, 2, k);
      PicksLine(table, g, k);
    }
    DrawnFullIff(table, g, draws);
  }

  lemma AlwaysFullIff(table: seq<nat>, g: Geometry)
    requires table != [] && AllPrime(table) && WellFormed(g)
    ensures (forall draws :: EnoughDraws(g, draws) ==> FullRing(table, g, draws)) <==> NoEntryDivides(table, g)
  {
    if NoEntryDivides(table, g) {
      forall draws | EnoughDraws(g, draws) ensures FullRing(table, g, draws) { DrawnFullIff(table, g, draws); }
    } else {
      var k :| 0 <= k < |table| && !(Coprime(g.pagesPerChain, table[k]) && Coprime(g.linesPerPage, table[k]));
      var draws := SomeDrawShort(table, g, k);
    }
  }

  /** Random rings are full whatever is drawn if and only if no prime of the table divides the number of
      pages per chain or of lines per page, which the page, chain and line sizes decide. */
  lemma RandomAlwaysFullIff(g: Geometry)
    requires WellFormed(g)
    ensures (forall draws :: EnoughDraws(g, draws) ==> FullRing(PRIME_TABLE, g, draws)) <==>
      NoEntryDivides(PRIME_TABLE, g)
  {
    forall k | 0 <= k < |PRIME_TABLE| ensures Prime(PRIME_TABLE[k]) { PrimeTableIsPrime(k); }
    AlwaysFullIff(PRIME_TABLE, g);
  }

  lemma FiveLines() returns (g: Geometry)
    ensures g == Rounded(64, 320, 320) && WellFormed(g)
    ensures g.linesPerPage == g.linesPerChain == 5 && g.pagesPerChain == 1 && g.linksPerChain == 20
  {
    g := Rounded(64, 320, 320);
  }

  lemma AffineZero(n: nat, j: nat)
    requires j < n
    ensures AffineSeq(n, 0, n)[j] == 0
  {
    AffineAt(n, 0, n, n, j);
    DivModUnique(j, n, 0);
  }

  /** A factor equal to the number of lines keeps all steps on line 0. */
  lemma AllOnLineZero(g: Geometry, plan: Plan, x: nat)
    requires PlanFits(g, plan) && g.pagesPerChain == 1
    requires plan.lineFactors[0] == g.linesPerPage && plan.lineOffsets[0] == 0 && x in RandomOrder(g, plan)
    ensures x == 0
  {
    var pages, lines := PageOrder(g, plan), LineOrders(g, plan);
    PlanIsTour(g, plan);
    var i, j := TourElement(g, pages, lines, g.pagesPerChain, x);
    AffineZero(g.linesPerPage, j);
  }

  lemma ConstantRing(order: seq<nat>)
    requires order != [] && forall x :: x in order ==> x == 0
    ensures RingLength(order) == 1
  {
    assert forall k :: 0 <= k < |order| ==> order[k] in order;
    assert Elements(order) == {0} by { assert order[0] in order; }
    ReturnsToRoot([Link(0, 0)], order);
  }

  /** One page of five 64-byte lines and draws of 0: the factor is 5, all steps stay on line 0, and the ring
      has one hop where five operations are counted. */
  lemma ShortRing(table: seq<nat>, draws: seq<nat>)
    requires table != [] && table[0] == 5 && draws == [0, 0, 0, 0]
    ensures var g := Rounded(64, 320, 320);
      && EnoughDraws(g, draws) && g.linesPerChain == 5
      && RingLength(RandomOrder(g, PlanOf(table, g, draws))) == 1
  {
    var g := FiveLines();
    var plan := PlanOf(table, g, draws);
    assert draws[2] % |table| == 0 && draws[3] % 5 == 0;
    var order := RandomOrder(g, plan);
    forall x | x in order ensures x == 0 { AllOnLineZero(g, plan, x); }
    ConstantRing(order);
  }
}
