/** Textual placement maps `t:c,c;t:c,c`: what the scanner of `alloc_map` makes of any text. */
module PlacementMap {
  import opened Wrappers
  import opened Decimal

  // ----- what the scanner sees

  /** One thread descriptor: the text of the thread domain and of the chain domains. */
  datatype Entry = Entry(thread: string, chains: seq<string>)

  /** First ':' at or after p, or the end. */
  function ThreadEnd(s: string, p: nat): (q: nat)
    requires p <= |s|
    ensures p <= q <= |s| && (q < |s| ==> s[q] == ':') && forall k :: p <= k < q ==> s[k] != ':'
    decreases |s| - p
  {
    if p == |s| || s[p] == ':' then p else ThreadEnd(s, p + 1)
  }

  /** First ',' or ';' at or after p, or the end. */
  function ChainEnd(s: string, p: nat): (q: nat)
    requires p <= |s|
    ensures p <= q <= |s| && (q < |s| ==> s[q] == ',' || s[q] == ';')
    ensures forall k :: p <= k < q ==> s[k] != ',' && s[k] != ';'
    decreases |s| - p
  {
    if p == |s| || s[p] == ',' || s[p] == ';' then p else ChainEnd(s, p + 1)
  }

  /** The scanner steps over ':' and over ',', but not over ';'. */
  function AfterThread(s: string, p: nat): (q: nat)
    requires p <= |s|
    ensures p <= q <= |s|
  {
    var q := ThreadEnd(s, p);
    if q < |s| then q + 1 else q
  }

  function AfterChain(s: string, p: nat): (q: nat)
    requires p <= |s|
    ensures p <= q <= |s|
  {
    var q := ChainEnd(s, p);
    if q < |s| && s[q] == ',' then q + 1 else q
  }

  predicate ListEnds(s: string, p: nat)
    requires p <= |s|
  {
    p == |s| || s[p] == ';'
  }

  function ChainTokens(s: string, p: nat): seq<string>
    requires p <= |s|
    decreases |s| - p
  {
    if ListEnds(s, p) then [] else [s[p..ChainEnd(s, p)]] + ChainTokens(s, AfterChain(s, p))
  }

  function ListEnd(s: string, p: nat): (q: nat)
    requires p <= |s|
    ensures p <= q <= |s| && ListEnds(s, q)
    decreases |s| - p
  {
    if ListEnds(s, p) then p else ListEnd(s, AfterChain(s, p))
  }

  function EntryAt(s: string, p: nat): Entry
    requires p <= |s|
  {
    Entry(s[p..ThreadEnd(s, p)], ChainTokens(s, AfterThread(s, p)))
  }

  /** Where the next entry starts, past the ';'. */
  function NextEntry(s: string, p: nat): (q: nat)
    requires p <= |s|
    ensures p <= q <= |s| && (p < |s| ==> p < q)
  {
    var q := ListEnd(s, AfterThread(s, p));
    if q == |s| then q else q + 1
  }

  function Entries(s: string, p: nat): seq<Entry>
    requires p <= |s|
    decreases |s| - p
  {
    if p == |s| then [] else [EntryAt(s, p)] + Entries(s, NextEntry(s, p))
  }

  // ----- the counts taken beforehand

  function Occurs(s: string, ch: char): nat {
    if s == [] then 0 else Occurs(s[..|s| - 1], ch) + (if s[|s| - 1] == ch then 1 else 0)
  }

  function FirstList(s: string): (q: nat)
    ensures q <= |s| && (forall k :: 0 <= k < q ==> s[k] != ';') && (q < |s| ==> s[q] == ';')
  {
    if s == [] || s[0] == ';' then 0
    else
      var q := 1 + FirstList(s[1..]);
      assert forall k :: 1 <= k < q ==> s[k] == s[1..][k - 1];
      q
  }

  function ThreadCount(s: string): nat { 1 + Occurs(s, ';') }

  function ChainCount(s: string): nat { 1 + Occurs(s[..FirstList(s)], ',') }

  // ----- outcome

  const BUFFER := 64

  /** Malformed ends the program; Overrun is a token that does not fit the buffer; Undefined reads a
      domain that no part of the text gave. */
  datatype Outcome = Malformed | Overrun | Undefined
                   | Placed(threads: nat, chains: nat, threadDomain: seq<nat>, chainDomain: seq<seq<nat>>)

  function ChainFault(tokens: seq<string>, c: nat, chains: nat): (o: Option<Outcome>)
    ensures o.Some? ==> o.value.Malformed? || o.value.Overrun?
  {
    if tokens == [] then None
    else if chains <= c then Some(Malformed)
    else if |tokens[0]| >= BUFFER then Some(Overrun)
    else ChainFault(tokens[1..], c + 1, chains)
  }

  function EntryFault(e: Entry, chains: nat): Option<Outcome> {
    if |e.thread| >= BUFFER then Some(Overrun) else ChainFault(e.chains, 0, chains)
  }

  /** What stops the scan first, if anything. */
  function ScanFault(es: seq<Entry>, chains: nat): (o: Option<Outcome>)
    ensures o.Some? ==> o.value.Malformed? || o.value.Overrun?
  {
    if es == [] then None
    else if EntryFault(es[0], chains).Some? then EntryFault(es[0], chains)
    else ScanFault(es[1..], chains)
  }

  /** Every cell of the table is given by the text. */
  predicate Full(es: seq<Entry>, threads: nat, chains: nat) {
    |es| == threads && forall t :: 0 <= t < |es| ==> |es[t].chains| == chains
  }

  function ThreadCells(es: seq<Entry>, domains: nat): seq<nat>
    requires domains > 0
  {
    seq(|es|, t requires 0 <= t < |es| => NumberOf(es[t].thread) % domains)
  }

  function RowCells(tokens: seq<string>, domains: nat): seq<nat>
    requires domains > 0
  {
    seq(|tokens|, c requires 0 <= c < |tokens| => NumberOf(tokens[c]) % domains)
  }

  function ChainCells(es: seq<Entry>, domains: nat): seq<seq<nat>>
    requires domains > 0
  {
    seq(|es|, t requires 0 <= t < |es| => RowCells(es[t].chains, domains))
  }

  function MapOutcome(s: string, domains: nat): Outcome
    requires domains > 0
  {
    var es, threads, chains := Entries(s, 0), ThreadCount(s), ChainCount(s);
    var fault := ScanFault(es, chains);
    if fault.Some? then fault.value
    else if Full(es, threads, chains) then Placed(threads, chains, ThreadCells(es, domains), ChainCells(es, domains))
    else Undefined
  }

  // ----- index bounds

  lemma SemicolonsPassed(s: string, p: nat, q: nat)
    requires p <= q <= |s|
    ensures Occurs(s[..p], ';') <= Occurs(s[..q], ';')
    ensures p < q && s[q - 1] == ';' ==> Occurs(s[..p], ';') < Occurs(s[..q], ';')
    decreases q
  {
    if p < q {
      assert s[..q][..q - 1] == s[..q - 1];
      SemicolonsPassed(s, p, q - 1);
    }
  }

  /** Each entry but the last ends at a ';' of its own, so there are never more entries than threads. */
  lemma {:induction false} EntriesWithin(s: string, p: nat)
    requires p <= |s|
    ensures |Entries(s, p)| + Occurs(s[..p], ';') <= ThreadCount(s)
    decreases |s| - p
  {
    assert s[..|s|] == s;
    if p < |s| {
      var q := NextEntry(s, p);
      EntriesWithin(s, q);
      SemicolonsPassed(s, p, q);
    } else {
      assert s[..p] == s;
    }
  }
}
