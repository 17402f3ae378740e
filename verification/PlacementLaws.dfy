/** Laws of placement maps that name no step of the scanner: wrapping, room in the buffer, ragged maps. */
module PlacementLaws {
  import opened Wrappers
  import opened NumberTheory
  import opened Decimal
  import opened PlacementMap
  import opened PlacementRoundTrip

  // ----- wrapping by the number of domains

  /** d is what is left of n when whole multiples of the number of domains are taken away. */
  predicate Wraps(n: nat, d: nat, domains: nat)
    requires domains > 0
  {
    d < domains && (n - d) % domains == 0
  }

  lemma RemainderWraps(n: nat, domains: nat)
    requires domains > 0
    ensures Wraps(n, n % domains, domains)
  {
    assert n - n % domains == domains * (n / domains);
    MulMod(domains, n / domains);
  }

  /** The number's digits fit the buffer. */
  predicate FewDigits(n: nat) { n < Pow10(63) }

  lemma FewDigitsShort(n: nat)
    requires FewDigits(n)
    ensures Plain(Printed(n)) && |Printed(n)| < BUFFER
  {
    PrintedLength(n, 63);
  }

  /** Whatever the numbers in a rectangular map, every domain that is read is the printed number wrapped into
      the range of the domains. */
  lemma DomainsWrap(threadDomain: seq<nat>, chainDomain: seq<seq<nat>>, chains: nat, domains: nat, t: nat, c: nat)
    requires Rectangular(threadDomain, chainDomain, chains) && domains > 0 && t < |threadDomain| && c < chains
    requires forall u :: 0 <= u < |threadDomain| ==> FewDigits(threadDomain[u])
    requires forall u, v :: 0 <= u < |chainDomain| && 0 <= v < chains ==> FewDigits(chainDomain[u][v])
    ensures var o := MapOutcome(Render(EntriesFor(threadDomain, chainDomain)), domains);
      && o.Placed? && o.threads == |threadDomain| == |o.threadDomain| == |o.chainDomain|
      && o.chains == chains == |o.chainDomain[t]|
      && Wraps(threadDomain[t], o.threadDomain[t], domains) && Wraps(chainDomain[t][c], o.chainDomain[t][c], domains)
  {
    var es := EntriesFor(threadDomain, chainDomain);
    forall u | 0 <= u < |es| ensures PlainEntry(es[u]) && ShortEntry(es[u]) {
      FewDigitsShort(threadDomain[u]);
      forall v | 0 <= v < chains ensures Plain(es[u].chains[v]) && |es[u].chains[v]| < BUFFER {
        FewDigitsShort(chainDomain[u][v]);
      }
    }
    RenderedPlaced(es, domains);
    PrintedParses(threadDomain[t]);
    PrintedParses(chainDomain[t][c]);
    RemainderWraps(threadDomain[t], domains);
    RemainderWraps(chainDomain[t][c], domains);
  }

  // ----- tokens that do not fit, rows that do not match

  predicate Fits63(e: Entry) { |e.thread| <= 63 && forall c :: 0 <= c < |e.chains| ==> |e.chains[c]| <= 63 }

  lemma {:induction false} ChainsNotMalformed(tokens: seq<string>, c: nat, chains: nat)
    requires c + |tokens| <= chains
    ensures ChainFault(tokens, c, chains) != Some(Malformed)
  {
    if tokens != [] { ChainsNotMalformed(tokens[1..], c + 1, chains); }
  }

  lemma {:induction false} ScanNotMalformed(es: seq<Entry>, chains: nat)
    requires forall t :: 0 <= t < |es| ==> |es[t].chains| <= chains
    ensures ScanFault(es, chains) != Some(Malformed)
  {
    if es != [] {
      ChainsNotMalformed(es[0].chains, 0, chains);
      ScanNotMalformed(es[1..], chains);
    }
  }

  lemma {:induction false} ChainsNotOverrun(tokens: seq<string>, c: nat, chains: nat)
    requires forall k :: 0 <= k < |tokens| ==> |tokens[k]| <= 63
    ensures ChainFault(tokens, c, chains) != Some(Overrun)
  {
    if tokens != [] { ChainsNotOverrun(tokens[1..], c + 1, chains); }
  }

  lemma {:induction false} ScanNotOverrun(es: seq<Entry>, chains: nat)
    requires forall t :: 0 <= t < |es| ==> Fits63(es[t])
    ensures ScanFault(es, chains) != Some(Overrun)
  {
    if es != [] {
      ChainsNotOverrun(es[0].chains, 0, chains);
      ScanNotOverrun(es[1..], chains);
    }
  }

  lemma ScanOf(es: seq<Entry>)
    requires es != [] && PlainEntries(es)
    ensures Entries(Render(es), 0) == es && ThreadCount(Render(es)) == |es| && ChainCount(Render(es)) == |es[0].chains|
    ensures es[0].chains != []
  {
    EntriesAt(Render(es), 0, es);
    RenderThreads(es);
    RenderChains(es);
  }

  /** A rectangular map of plain tokens is placed if and only if no token is longer than 63 characters, and
      overruns the buffer otherwise. */
  lemma BufferLimit(es: seq<Entry>, domains: nat)
    requires es != [] && PlainEntries(es) && domains > 0
    requires forall t :: 0 <= t < |es| ==> |es[t].chains| == |es[0].chains|
    ensures MapOutcome(Render(es), domains).Placed? <==> forall t :: 0 <= t < |es| ==> Fits63(es[t])
    ensures MapOutcome(Render(es), domains).Placed? || MapOutcome(Render(es), domains).Overrun?
  {
    ScanOf(es);
    ScanNotMalformed(es, |es[0].chains|);
    ScanFaultIff(es, |es[0].chains|);
    assert forall t :: 0 <= t < |es| ==> (ShortEntry(es[t]) <==> Fits63(es[t]));
  }

  /** A map of plain tokens that fit is malformed if and only if a later thread has more chains than the first,
      and placed if and only if all have as many; otherwise some domain is read that the text does not give. */
  lemma RaggedMaps(es: seq<Entry>, domains: nat)
    requires es != [] && PlainEntries(es) && domains > 0 && forall t :: 0 <= t < |es| ==> Fits63(es[t])
    ensures var o := MapOutcome(Render(es), domains);
      && (o.Malformed? <==> exists t :: 0 <= t < |es| && |es[t].chains| > |es[0].chains|)
      && (o.Placed? <==> forall t :: 0 <= t < |es| ==> |es[t].chains| == |es[0].chains|)
      && !o.Overrun?
  {
    ScanOf(es);
    ScanNotOverrun(es, |es[0].chains|);
    ScanFaultIff(es, |es[0].chains|);
    assert forall t :: 0 <= t < |es| ==> ShortEntry(es[t]) && es[t].chains != [];
  }

  /** Tokens of a row that are read without a fault. */
  predicate RowFits(tokens: seq<string>, n: nat, chains: nat) {
    n <= |tokens| && n <= chains && forall k :: 0 <= k < n ==> |tokens[k]| <= 63
  }

  lemma {:induction false} RowFault(tokens: seq<string>, n: nat, c: nat, chains: nat)
    requires c <= chains && RowFits(tokens, n, chains - c) && n < |tokens|
    ensures c + n == chains ==> ChainFault(tokens, c, chains) == Some(Malformed)
    ensures c + n < chains && |tokens[n]| > 63 ==> ChainFault(tokens, c, chains) == Some(Overrun)
  {
    if n > 0 { RowFault(tokens[1..], n - 1, c + 1, chains); }
  }

  lemma {:induction false} NoRowFault(tokens: seq<string>, c: nat, chains: nat)
    requires c <= chains && RowFits(tokens, |tokens|, chains - c)
    ensures ChainFault(tokens, c, chains) == None
  {
    if tokens != [] { NoRowFault(tokens[1..], c + 1, chains); }
  }

  predicate EntryFits(e: Entry, chains: nat) { |e.thread| <= 63 && RowFits(e.chains, |e.chains|, chains) }

  lemma {:induction false} FaultAt(es: seq<Entry>, t: nat, chains: nat)
    requires t < |es| && forall u :: 0 <= u < t ==> EntryFits(es[u], chains)
    requires EntryFault(es[t], chains).Some?
    ensures ScanFault(es, chains) == EntryFault(es[t], chains)
  {
    if t > 0 {
      NoRowFault(es[0].chains, 0, chains);
      FaultAt(es[1..], t - 1, chains);
    }
  }

  /** The first fault in the text decides, whatever follows: a thread domain or a token within the row of more
      than 63 characters overruns the buffer, and a token beyond the row is malformed however long it is. */
  lemma FirstFault(es: seq<Entry>, t: nat, n: nat, domains: nat)
    requires PlainEntries(es) && t < |es| && domains > 0
    requires forall u :: 0 <= u < t ==> EntryFits(es[u], |es[0].chains|)
    ensures |es[t].thread| > 63 ==> MapOutcome(Render(es), domains).Overrun?
    ensures |es[t].thread| <= 63 && n < |es[t].chains| && RowFits(es[t].chains, n, |es[0].chains|) ==>
      && (n == |es[0].chains| ==> MapOutcome(Render(es), domains).Malformed?)
      && (n < |es[0].chains| && |es[t].chains[n]| > 63 ==> MapOutcome(Render(es), domains).Overrun?)
  {
    ScanOf(es);
    var chains := |es[0].chains|;
    if |es[t].thread| <= 63 && n < |es[t].chains| && RowFits(es[t].chains, n, chains) {
      RowFault(es[t].chains, n, 0, chains);
    }
    if EntryFault(es[t], chains).Some? { FaultAt(es, t, chains); }
  }

  // ----- the text itself

  lemma OneDigit(n: nat)
    requires n < 10
    ensures Printed(n) == [('0' as int + n) as char]
  {
  }

  lemma EntryOfTwo(a: string, b: string, c: string)
    ensures EntryText(Entry(a, [b, c])) == a + [':'] + (b + [','] + c)
  {
    assert [b, c][1..] == [c];
    assert JoinTokens([c]) == c;
    assert JoinTokens([b, c]) == b + [','] + c;
  }

  lemma RenderTwo(e: Entry, f: Entry, x: string, y: string)
    requires e.chains != [] && f.chains != [] && x == EntryText(e) && y == EntryText(f)
    ensures Render([e, f]) == x + [';'] + y
  {
    assert [e, f][1..] == [f];
  }

  /** Two threads with two chains each, as text. */
  lemma MapText() returns (es: seq<Entry>)
    ensures es == EntriesFor([0, 2], [[3, 0], [1, 2]]) && Listed(es) && Render(es) == "0:3,0;2:1,2"
  {
    OneDigit(0);
    OneDigit(1);
    OneDigit(2);
    OneDigit(3);
    var e, f := Entry("0", ["3", "0"]), Entry("2", ["1", "2"]);
    es := [e, f];
    assert Texts([3, 0]) == e.chains && Texts([1, 2]) == f.chains;
    EntryOfTwo("0", "3", "0");
    EntryOfTwo("2", "1", "2");
    RenderTwo(e, f, "0:3,0", "2:1,2");
    assert "0:3,0" + [';'] + "2:1,2" == "0:3,0;2:1,2";
  }
}
