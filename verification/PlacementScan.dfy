/** `alloc_map` as it runs: a cursor over the text, a buffer of 64 characters and tables sized beforehand. */
module PlacementScan {
  import opened Wrappers
  import opened Decimal
  import opened PlacementMap

  method CountThreads(s: string) returns (threads: nat)
    ensures threads == ThreadCount(s)
  {
    threads := 1;
    var p := 0;
    while p < |s|
      invariant p <= |s| && threads == 1 + Occurs(s[..p], ';')
    {
      assert s[..p + 1][..p] == s[..p];
      if s[p] == ';' { threads := threads + 1; }
      p := p + 1;
    }
    assert s[..p] == s;
  }

  method CountChains(s: string) returns (chains: nat)
    ensures chains == ChainCount(s)
  {
    chains := 1;
    var p := 0;
    while p < |s| && s[p] != ';'
      invariant p <= FirstList(s) && chains == 1 + Occurs(s[..p], ',')
    {
      assert s[..p + 1][..p] == s[..p];
      if s[p] == ',' { chains := chains + 1; }
      p := p + 1;
    }
  }

  /** Copies the thread domain's text into the buffer and steps over ':'. */
  method ReadThread(s: string, start: nat, buf: array<char>) returns (p: nat, i: nat, overrun: bool)
    requires start <= |s| && buf.Length == BUFFER
    modifies buf
    ensures overrun <==> ThreadEnd(s, start) - start >= BUFFER
    ensures !overrun ==> p == AfterThread(s, start) && i < BUFFER && buf[..i] == s[start..ThreadEnd(s, start)]
  {
    p, i, overrun := start, 0, false;
    ghost var end := ThreadEnd(s, start);
    while p < |s| && s[p] != ':'
      invariant start <= p <= end && i == p - start < BUFFER && buf[..i] == s[start..p]
    {
      if i + 1 == BUFFER { overrun := true; return; }
      buf[i] := s[p];
      i := i + 1;
      p := p + 1;
    }
    if p < |s| { p := p + 1; }
  }

  /** Copies a chain domain's text into the buffer and steps over ','. */
  method ReadChain(s: string, start: nat, buf: array<char>) returns (p: nat, i: nat, overrun: bool)
    requires start <= |s| && buf.Length == BUFFER
    modifies buf
    ensures overrun <==> ChainEnd(s, start) - start >= BUFFER
    ensures !overrun ==> p == AfterChain(s, start) && i < BUFFER && buf[..i] == s[start..ChainEnd(s, start)]
  {
    p, i, overrun := start, 0, false;
    ghost var end := ChainEnd(s, start);
    while p < |s| && s[p] != ';' && s[p] != ','
      invariant start <= p <= end && i == p - start < BUFFER && buf[..i] == s[start..p]
    {
      if i + 1 == BUFFER { overrun := true; return; }
      buf[i] := s[p];
      i := i + 1;
      p := p + 1;
    }
    if p < |s| && s[p] == ',' { p := p + 1; }
  }

  /** A chain domain: its text by way of the buffer, and its number. */
  method ReadNumber(s: string, start: nat, buf: array<char>) returns (p: nat, n: nat, overrun: bool)
    requires start <= |s| && buf.Length == BUFFER
    modifies buf
    ensures overrun <==> ChainEnd(s, start) - start >= BUFFER
    ensures !overrun ==> p == AfterChain(s, start) && n == NumberOf(s[start..ChainEnd(s, start)])
  {
    var i;
    p, i, overrun := ReadChain(s, start, buf);
    n := 0;
    if !overrun { n := ParseNumber(buf[..i]); }
  }

  /** What the scan of a list leaves in row t: the tokens read so far, nothing behind them. */
  ghost predicate RowHolds(cells: array2<Option<nat>>, t: nat, tokens: seq<string>)
    requires t < cells.Length0
    reads cells
  {
    && |tokens| <= cells.Length1
    && forall c: nat :: c < cells.Length1 ==> cells[t, c] == if c < |tokens| then Some(NumberOf(tokens[c])) else None
  }

  function TokensOf(es: seq<Entry>, t: nat): seq<string> { if t < |es| then es[t].chains else [] }

  /** The rows other than t hold what the entries read so far give. */
  ghost predicate OtherRows(cells: array2<Option<nat>>, t: nat, es: seq<Entry>)
    reads cells
  {
    forall u: nat :: u < cells.Length0 && u != t ==> RowHolds(cells, u, TokensOf(es, u))
  }

  /** Writes the next cell of row t, which is empty. */
  method SetCell(cells: array2<Option<nat>>, t: nat, c: nat, n: nat, ghost tokens: seq<string>, ghost tok: string,
                 ghost es: seq<Entry>)
    requires t < cells.Length0 && c == |tokens| < cells.Length1 && n == NumberOf(tok)
    requires RowHolds(cells, t, tokens) && OtherRows(cells, t, es)
    modifies cells
    ensures RowHolds(cells, t, tokens + [tok]) && OtherRows(cells, t, es)
  {
    assert cells[t, c] == None;
    cells[t, c] := Some(n);
    forall u: nat | u < cells.Length0 && u != t ensures RowHolds(cells, u, TokensOf(es, u)) {
      assert old(RowHolds(cells, u, TokensOf(es, u)));
    }
  }

  /** The next token of a list, and what the scan makes of it. */
  lemma TokenAt(s: string, p: nat, all: seq<string>, c: nat, chains: nat)
    requires p <= |s| && c <= |all| && ChainTokens(s, p) == all[c..] && !ListEnds(s, p)
    ensures c < |all| && all[c] == s[p..ChainEnd(s, p)] && all[..c + 1] == all[..c] + [all[c]]
    ensures ChainTokens(s, AfterChain(s, p)) == all[c + 1..] && ListEnd(s, AfterChain(s, p)) == ListEnd(s, p)
    ensures AfterChain(s, p) > p
    ensures ChainFault(all[c..], c, chains) ==
      if chains <= c then Some(Malformed)
      else if |all[c]| >= BUFFER then Some(Overrun)
      else ChainFault(all[c + 1..], c + 1, chains)
  {
    assert all[c] == all[c..][0];
    assert all[c + 1..] == all[c..][1..];
  }

  /** The list of chain domains of thread t. */
  method ReadChains(s: string, start: nat, t: nat, threads: nat, chains: nat, cells: array2<Option<nat>>,
                    buf: array<char>, ghost es: seq<Entry>)
      returns (p: nat, fault: Option<Outcome>)
    requires start <= |s| && t < threads == cells.Length0 && chains == cells.Length1 && buf.Length == BUFFER
    requires RowHolds(cells, t, []) && OtherRows(cells, t, es)
    modifies cells, buf
    ensures fault == ChainFault(ChainTokens(s, start), 0, chains)
    ensures fault.None? ==> p == ListEnd(s, start) && RowHolds(cells, t, ChainTokens(s, start))
    ensures OtherRows(cells, t, es)
  {
    ghost var all := ChainTokens(s, start);
    p := start;
    var c := 0;
    while p < |s| && s[p] != ';'
      invariant p <= |s| && c <= |all| && ChainTokens(s, p) == all[c..] && ListEnd(s, p) == ListEnd(s, start)
      invariant ChainFault(all[c..], c, chains) == ChainFault(all, 0, chains)
      invariant RowHolds(cells, t, all[..c]) && OtherRows(cells, t, es)
      decreases |s| - p
    {
      TokenAt(s, p, all, c, chains);
      if chains <= c || threads <= t {
        fault := Some(Malformed);
        return;
      }
      var n, overrun;
      p, n, overrun := ReadNumber(s, p, buf);
      if overrun {
        fault := Some(Overrun);
        return;
      }
      SetCell(cells, t, c, n, all[..c], all[c], es);
      c := c + 1;
    }
    assert all[..c] == all;
    fault := None;
  }

  ghost predicate NamesHold(names: array<Option<nat>>, es: seq<Entry>)
    reads names
  {
    && |es| <= names.Length
    && forall t: nat :: t < names.Length ==> names[t] == if t < |es| then Some(NumberOf(es[t].thread)) else None
  }

  ghost predicate RowsHold(cells: array2<Option<nat>>, es: seq<Entry>)
    reads cells
  {
    forall t: nat :: t < cells.Length0 ==> RowHolds(cells, t, TokensOf(es, t))
  }

  /** Both tables hold the entries read so far and nothing behind them. */
  ghost predicate TableHolds(names: array<Option<nat>>, cells: array2<Option<nat>>, es: seq<Entry>)
    reads names, cells
  {
    names.Length == cells.Length0 && NamesHold(names, es) && RowsHold(cells, es)
  }

  /** Writes the next thread domain, which is empty. */
  method SetName(names: array<Option<nat>>, t: nat, n: nat, ghost es: seq<Entry>, ghost e: Entry)
    requires t == |es| < names.Length && NamesHold(names, es) && n == NumberOf(e.thread)
    modifies names
    ensures NamesHold(names, es + [e])
  {
    assert names[t] == None;
    names[t] := Some(n);
  }

  lemma RowsGrow(cells: array2<Option<nat>>, t: nat, es: seq<Entry>, e: Entry)
    requires t == |es| < cells.Length0 && OtherRows(cells, t, es) && RowHolds(cells, t, e.chains)
    ensures RowsHold(cells, es + [e])
  {
    forall u: nat | u < cells.Length0 ensures RowHolds(cells, u, TokensOf(es + [e], u)) {
      if u != t { assert TokensOf(es + [e], u) == TokensOf(es, u); }
    }
  }

  /** The next entry of a map, and what the scan makes of it. */
  lemma EntryOf(s: string, p: nat, all: seq<Entry>, t: nat, chains: nat)
    requires p < |s| && t <= |all| && Entries(s, p) == all[t..]
    ensures t < |all| && all[t] == EntryAt(s, p) && all[..t + 1] == all[..t] + [all[t]]
    ensures Entries(s, NextEntry(s, p)) == all[t + 1..] && NextEntry(s, p) > p
    ensures ScanFault(all[t..], chains) ==
      if EntryFault(all[t], chains).Some? then EntryFault(all[t], chains) else ScanFault(all[t + 1..], chains)
  {
    assert all[t] == all[t..][0];
    assert all[t + 1..] == all[t..][1..];
  }

  /** One thread descriptor, up to and over its ';'. */
  method ReadEntry(s: string, start: nat, t: nat, threads: nat, chains: nat, names: array<Option<nat>>,
                   cells: array2<Option<nat>>, buf: array<char>, ghost es: seq<Entry>)
      returns (p: nat, fault: Option<Outcome>)
    requires start < |s| && t == |es| < threads == names.Length && chains == cells.Length1 && buf.Length == BUFFER
    requires TableHolds(names, cells, es)
    modifies names, cells, buf
    ensures fault == EntryFault(EntryAt(s, start), chains)
    ensures fault.None? ==> p == NextEntry(s, start) && TableHolds(names, cells, es + [EntryAt(s, start)])
  {
    ghost var e := EntryAt(s, start);
    assert RowHolds(cells, t, TokensOf(es, t)) && OtherRows(cells, t, es);
    var i, overrun;
    p, i, overrun := ReadThread(s, start, buf);
    if overrun { return p, Some(Overrun); }
    var n := ParseNumber(buf[..i]);
    SetName(names, t, n, es, e);
    p, fault := ReadChains(s, p, t, threads, chains, cells, buf, es);
    if fault.None? {
      RowsGrow(cells, t, es, e);
      if p < |s| { p := p + 1; }
    }
  }

  method ScanMap(s: string, threads: nat, chains: nat, names: array<Option<nat>>, cells: array2<Option<nat>>)
      returns (fault: Option<Outcome>)
    requires threads == ThreadCount(s) == names.Length == cells.Length0 && chains == cells.Length1
    requires TableHolds(names, cells, [])
    modifies names, cells
    ensures fault == ScanFault(Entries(s, 0), chains)
    ensures fault.None? ==> TableHolds(names, cells, Entries(s, 0))
  {
    ghost var all := Entries(s, 0);
    EntriesWithin(s, 0);
    var buf := new char[BUFFER];
    var p, t := 0, 0;
    while p < |s|
      invariant p <= |s| && t <= |all| <= threads && Entries(s, p) == all[t..]
      invariant ScanFault(all[t..], chains) == ScanFault(all, chains)
      invariant TableHolds(names, cells, all[..t])
      decreases |s| - p
    {
      EntryOf(s, p, all, t, chains);
      p, fault := ReadEntry(s, p, t, threads, chains, names, cells, buf, all[..t]);
      if fault.Some? { return; }
      t := t + 1;
    }
    assert all[..t] == all;
    fault := None;
  }

  /** Copies a row; a cell that was never written stops it. */
  method CopyRow(cells: array2<Option<nat>>, i: nat, domains: nat, ghost tokens: seq<string>)
    returns (row: seq<nat>, defined: bool)
    requires i < cells.Length0 && domains > 0 && RowHolds(cells, i, tokens)
    ensures defined <==> |tokens| == cells.Length1
    ensures defined ==> row == RowCells(tokens, domains)
  {
    row, defined := [], true;
    for j := 0 to cells.Length1
      invariant j <= |tokens| && row == RowCells(tokens, domains)[..j]
    {
      if cells[i, j].None? { return row, false; }
      row := row + [cells[i, j].value % domains];
    }
  }

  /** Copies both tables. */
  method CopyTable(names: array<Option<nat>>, cells: array2<Option<nat>>, domains: nat, ghost es: seq<Entry>)
      returns (threadDomain: seq<nat>, chainDomain: seq<seq<nat>>, defined: bool)
    requires TableHolds(names, cells, es) && domains > 0
    ensures defined <==> Full(es, names.Length, cells.Length1)
    ensures defined ==> threadDomain == ThreadCells(es, domains) && chainDomain == ChainCells(es, domains)
  {
    threadDomain, chainDomain, defined := [], [], false;
    ghost var names', cells' := ThreadCells(es, domains), ChainCells(es, domains);
    for i := 0 to names.Length
      invariant i <= |es| && forall t :: 0 <= t < i ==> |es[t].chains| == cells.Length1
      invariant threadDomain == names'[..i] && chainDomain == cells'[..i]
    {
      if names[i].None? { return; }
      threadDomain := threadDomain + [names[i].value % domains];
      assert RowHolds(cells, i, TokensOf(es, i));
      var row, whole := CopyRow(cells, i, domains, es[i].chains);
      if !whole { return; }
      chainDomain := chainDomain + [row];
      assert names'[..i + 1] == names'[..i] + [names'[i]] && cells'[..i + 1] == cells'[..i] + [cells'[i]];
    }
    defined := true;
  }

  class Placement {
    const text: string
    const domains: nat
    var numThreads: nat
    var chainsPerThread: nat
    var threadDomain: seq<nat>
    var chainDomain: seq<seq<nat>>

    constructor (text: string, domains: nat)
      ensures this.text == text && this.domains == domains
    {
      this.text, this.domains := text, domains;
    }

    method AllocMap() returns (o: Outcome)
      requires domains > 0
      modifies this
      ensures o == MapOutcome(text, domains)
      ensures o.Placed? ==> o == Placed(numThreads, chainsPerThread, threadDomain, chainDomain)
    {
      var threads := CountThreads(text);
      var names := new Option<nat>[threads](_ => None);
      var chains := CountChains(text);
      var cells := new Option<nat>[threads, chains]((_, _) => None);
      var fault := ScanMap(text, threads, chains, names, cells);
      if fault.Some? { return fault.value; }
      numThreads, chainsPerThread := threads, chains;
      var defined;
      threadDomain, chainDomain, defined := CopyTable(names, cells, domains, Entries(text, 0));
      o := if defined then Placed(threads, chains, threadDomain, chainDomain) else Undefined;
    }
  }
}
