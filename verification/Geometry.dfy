/** Sizes of lines, pages and chains, and the slot of memory that stands for a line of a page. */
module Geometry {
  import opened NumberTheory

  /** sizeof(Chain): a `next` pointer followed by a 64-bit datum. */
  const LINK_BYTES := 16

  datatype Geometry = Geometry(
    bytesPerLine: nat, bytesPerPage: nat, bytesPerChain: nat,
    linesPerPage: nat, pagesPerChain: nat, linesPerChain: nat,
    linksPerLine: nat, linksPerPage: nat, linksPerChain: nat)

  function CeilDiv(a: nat, b: nat): (q: nat)
    requires b > 0
  {
    (a + b - 1) / b
  }

  /** CeilDiv(a, b) * b is the least multiple of b that is at least a. */
  lemma CeilDivLeast(a: nat, b: nat, m: nat)
    requires b > 0
    ensures CeilDiv(a, b) * b >= a
    ensures m * b >= a <==> m >= CeilDiv(a, b)
    ensures a > 0 ==> CeilDiv(a, b) > 0
  {
    var q, r := (a + b - 1) / b, (a + b - 1) % b;
    assert a + b - 1 == q * b + r;
    if m >= q {
      MulMono(q, m, b);
    } else {
      MulMono(m, q - 1, b);
      assert (q - 1) * b == q * b - b;
    }
  }

  lemma CeilDivExact(q: nat, b: nat)
    requires b > 0
    ensures CeilDiv(q * b, b) == q
  {
    DivModUnique(q, b, b - 1);
  }

  /** The sizes derived from the requested ones, rounded up where needed. */
  function Rounded(bytesPerLine: nat, bytesPerPage: nat, bytesPerChain: nat): (g: Geometry)
    requires bytesPerLine > 0 && bytesPerPage > 0 && bytesPerChain > 0
  {
    var linesPerPage := CeilDiv(bytesPerPage, bytesPerLine);
    CeilDivLeast(bytesPerPage, bytesPerLine, 0);
    var page := bytesPerLine * linesPerPage;
    assert page > 0;
    var pagesPerChain := CeilDiv(bytesPerChain, page);
    var linksPerLine := bytesPerLine / LINK_BYTES;
    var linesPerChain := linesPerPage * pagesPerChain;
    Geometry(bytesPerLine, page, page * pagesPerChain, linesPerPage, pagesPerChain, linesPerChain,
             linksPerLine, linesPerPage * linksPerLine, linesPerChain * linksPerLine)
  }

  lemma RoundedPositive(line: nat, page: nat, chain: nat)
    requires line > 0 && page > 0 && chain > 0
    ensures var g := Rounded(line, page, chain);
      g.linesPerPage > 0 && g.pagesPerChain > 0 && g.bytesPerPage > 0 && g.bytesPerChain > 0
  {
    var g := Rounded(line, page, chain);
    CeilDivLeast(page, line, 0);
    MulMono(1, g.linesPerPage, line);
    CeilDivLeast(chain, g.bytesPerPage, 0);
    MulMono(1, g.pagesPerChain, g.bytesPerPage);
  }

  lemma Regroup(line: int, lines: int, pages: int)
    ensures line * lines == lines * line && (line * lines) * pages == pages * (line * lines) == (lines * pages) * line
  {
  }

  /** Rounding yields the least page of whole lines and the least chain of whole pages that hold the
      requested sizes. */
  lemma RoundedIsLeast(line: nat, page: nat, chain: nat, lines: nat, pages: nat)
    requires line > 0 && page > 0 && chain > 0
    ensures var g := Rounded(line, page, chain);
      && g.bytesPerPage == g.linesPerPage * line >= page
      && (lines * line >= page <==> lines >= g.linesPerPage)
      && g.bytesPerChain == g.pagesPerChain * g.bytesPerPage >= chain
      && (pages * g.bytesPerPage >= chain <==> pages >= g.pagesPerChain)
      && g.bytesPerChain == g.linesPerChain * line
  {
    var g := Rounded(line, page, chain);
    RoundedPositive(line, page, chain);
    CeilDivLeast(page, line, lines);
    CeilDivLeast(chain, g.bytesPerPage, pages);
    Regroup(line, g.linesPerPage, g.pagesPerChain);
  }

  /** Rounding an already rounded geometry changes nothing. */
  lemma RoundedIdempotent(line: nat, page: nat, chain: nat)
    requires line > 0 && page > 0 && chain > 0
    ensures var g := Rounded(line, page, chain);
      && g.bytesPerPage > 0 && g.bytesPerChain > 0
      && Rounded(line, g.bytesPerPage, g.bytesPerChain) == g
  {
    var g := Rounded(line, page, chain);
    RoundedPositive(line, page, chain);
    CeilDivExact(g.linesPerPage, line);
    assert g.bytesPerPage == g.linesPerPage * line;
    CeilDivExact(g.pagesPerChain, g.bytesPerPage);
    assert g.bytesPerChain == g.pagesPerChain * g.bytesPerPage;
  }

  /** What the init functions rely on. */
  predicate WellFormed(g: Geometry) {
    && g.linesPerPage > 0 && g.pagesPerChain > 0 && g.linksPerLine > 0
    && g.linesPerChain == g.linesPerPage * g.pagesPerChain
    && g.linksPerPage == g.linesPerPage * g.linksPerLine
    && g.linksPerChain == g.linesPerChain * g.linksPerLine
  }

  /** A line size of at least one link is all that rounding needs to give a usable geometry. */
  lemma RoundedWellFormed(line: nat, page: nat, chain: nat)
    requires line > 0 && page > 0 && chain > 0
    ensures WellFormed(Rounded(line, page, chain)) <==> line >= LINK_BYTES
  {
    RoundedPositive(line, page, chain);
  }

  /** A line has as many links as fit, 16 bytes each; the other link counts follow. */
  lemma RoundedLinks(line: nat, page: nat, chain: nat)
    requires line > 0 && page > 0 && chain > 0
    ensures var g := Rounded(line, page, chain);
      && 16 * g.linksPerLine <= line < 16 * (g.linksPerLine + 1)
      && g.linksPerPage == g.linesPerPage * g.linksPerLine && g.linksPerChain == g.pagesPerChain * g.linksPerPage
  {
    var g := Rounded(line, page, chain);
    Regroup(g.linksPerLine, g.linesPerPage, g.pagesPerChain);
  }

  /** First link of a line of a page. */
  function Slot(g: Geometry, page: nat, line: nat): (link: nat) {
    page * g.linksPerPage + line * g.linksPerLine
  }

  lemma SlotOfLine(g: Geometry, page: nat, line: nat)
    requires WellFormed(g)
    ensures Slot(g, page, line) == (page * g.linesPerPage + line) * g.linksPerLine
  {
    calc {
      Slot(g, page, line);
      page * (g.linesPerPage * g.linksPerLine) + line * g.linksPerLine;
      (page * g.linesPerPage + line) * g.linksPerLine;
    }
  }

  lemma LineBound(p: nat, l: nat, pages: nat, lines: nat)
    requires p < pages && l < lines
    ensures 0 <= p * lines + l < pages * lines
  {
    MulMono(p + 1, pages, lines);
    MulMono(0, p, lines);
    assert (p + 1) * lines == p * lines + lines;
  }

  lemma SlotInChain(g: Geometry, page: nat, line: nat)
    requires WellFormed(g) && page < g.pagesPerChain && line < g.linesPerPage
    ensures Slot(g, page, line) < g.linksPerChain
    ensures Slot(g, page, line) % g.linksPerLine == 0
    ensures Slot(g, page, line) / g.linksPerLine == page * g.linesPerPage + line < g.linesPerChain
  {
    SlotOfLine(g, page, line);
    LineBound(page, line, g.pagesPerChain, g.linesPerPage);
    var i := page * g.linesPerPage + line;
    LineBound(i, 0, g.linesPerChain, g.linksPerLine);
    DivModUnique(i, g.linksPerLine, 0);
  }

  /** Distinct lines of a chain have distinct slots. */
  lemma SlotInjective(g: Geometry, p: nat, l: nat, p': nat, l': nat)
    requires WellFormed(g)
    requires p < g.pagesPerChain && l < g.linesPerPage && p' < g.pagesPerChain && l' < g.linesPerPage
    requires Slot(g, p, l) == Slot(g, p', l')
    ensures p == p' && l == l'
  {
    SlotInChain(g, p, l);
    SlotInChain(g, p', l');
    DivModUnique(p, g.linesPerPage, l);
    DivModUnique(p', g.linesPerPage, l');
  }

  /** Experiment settings that the geometry step rewrites in place. */
  class Experiment {
    var bytesPerLine: nat
    var bytesPerPage: nat
    var bytesPerChain: nat
    var linesPerPage: nat
    var pagesPerChain: nat
    var linesPerChain: nat
    var linksPerLine: nat
    var linksPerPage: nat
    var linksPerChain: nat
    var chainsPerThread: nat
    var numThreads: nat
    var bytesPerThread: nat
    var bytesPerTest: nat

    ghost function Sizes(): Geometry
      reads this
    {
      Geometry(bytesPerLine, bytesPerPage, bytesPerChain, linesPerPage, pagesPerChain, linesPerChain,
               linksPerLine, linksPerPage, linksPerChain)
    }

    method ComputeGeometry()
      requires bytesPerLine > 0 && bytesPerPage > 0 && bytesPerChain > 0
      modifies this
      ensures Sizes() == Rounded(old(bytesPerLine), old(bytesPerPage), old(bytesPerChain))
      ensures chainsPerThread == old(chainsPerThread) && numThreads == old(numThreads)
      ensures bytesPerThread == bytesPerChain * chainsPerThread
      ensures bytesPerTest == bytesPerThread * numThreads
    {
      linesPerPage := (bytesPerPage + bytesPerLine - 1) / bytesPerLine;
      CeilDivLeast(bytesPerPage, bytesPerLine, 0);
      bytesPerPage := bytesPerLine * linesPerPage;
      pagesPerChain := (bytesPerChain + bytesPerPage - 1) / bytesPerPage;
      bytesPerChain := bytesPerPage * pagesPerChain;
      bytesPerThread := bytesPerChain * chainsPerThread;
      bytesPerTest := bytesPerThread * numThreads;
      linksPerLine := bytesPerLine / LINK_BYTES;
      linksPerPage := linesPerPage * linksPerLine;
      linesPerChain := linesPerPage * pagesPerChain;
      linksPerChain := linesPerChain * linksPerLine;
    }
  }
}
