/** Printing a placement and scanning the text restores the placement. */
module PlacementRoundTrip {
  import opened Decimal
  import opened PlacementMap

  // ----- text of well-formed maps

  function JoinTokens(tokens: seq<string>): string
    requires tokens != []
  {
    if |tokens| == 1 then tokens[0] else tokens[0] + [','] + JoinTokens(tokens[1..])
  }

  function EntryText(e: Entry): string
    requires e.chains != []
  {
    e.thread + [':'] + JoinTokens(e.chains)
  }

  predicate Listed(es: seq<Entry>) { forall t :: 0 <= t < |es| ==> es[t].chains != [] }

  function Render(es: seq<Entry>): string
    requires es != [] && Listed(es)
  {
    if |es| == 1 then EntryText(es[0]) else EntryText(es[0]) + [';'] + Render(es[1..])
  }

  /** A token without separators. */
  predicate Plain(tok: string) {
    tok != [] && forall k :: 0 <= k < |tok| ==> tok[k] != ':' && tok[k] != ',' && tok[k] != ';'
  }

  predicate PlainEntry(e: Entry) {
    Plain(e.thread) && e.chains != [] && forall c :: 0 <= c < |e.chains| ==> Plain(e.chains[c])
  }

  predicate PlainEntries(es: seq<Entry>) { forall t :: 0 <= t < |es| ==> PlainEntry(es[t]) }

  /** `part` stands in s at p. */
  predicate Stands(s: string, p: nat, part: string) {
    p + |part| <= |s| && forall k :: 0 <= k < |part| ==> s[p + k] == part[k]
  }

  lemma SliceStands(s: string, p: nat, part: string)
    requires Stands(s, p, part)
    ensures s[p..p + |part|] == part
  {
    var slice := s[p..p + |part|];
    forall k | 0 <= k < |part| ensures slice[k] == part[k] { assert slice[k] == s[p + k]; }
  }

  lemma StandsApart(s: string, p: nat, a: string, ch: char, b: string)
    requires Stands(s, p, a + [ch] + b)
    ensures Stands(s, p, a) && p + |a| < |s| && s[p + |a|] == ch && Stands(s, p + |a| + 1, b)
  {
    var all := a + [ch] + b;
    forall k | 0 <= k < |a| ensures s[p + k] == a[k] { assert all[k] == a[k]; }
    assert all[|a|] == ch;
    forall k | 0 <= k < |b| ensures s[p + |a| + 1 + k] == b[k] { assert all[|a| + 1 + k] == b[k]; }
  }

  // ----- scanning gives the tokens back

  lemma ThreadEndAt(s: string, p: nat, tok: string)
    requires Plain(tok) && Stands(s, p, tok) && p + |tok| < |s| && s[p + |tok|] == ':'
    ensures ThreadEnd(s, p) == p + |tok|
  {
    forall k | p <= k < p + |tok| ensures s[k] != ':' { assert s[p + (k - p)] == tok[k - p]; }
  }

  lemma ChainEndAt(s: string, p: nat, tok: string)
    requires Plain(tok) && Stands(s, p, tok)
    requires p + |tok| < |s| ==> s[p + |tok|] == ',' || s[p + |tok|] == ';'
    ensures ChainEnd(s, p) == p + |tok| && !ListEnds(s, p)
  {
    forall k | p <= k < p + |tok| ensures s[k] != ',' && s[k] != ';' { assert s[p + (k - p)] == tok[k - p]; }
  }

  lemma TokensUnfold(s: string, p: nat, e: nat, q: nat)
    requires p <= |s| && !ListEnds(s, p) && ChainEnd(s, p) == e && AfterChain(s, p) == q
    ensures ChainTokens(s, p) == [s[p..e]] + ChainTokens(s, q) && ListEnd(s, p) == ListEnd(s, q)
  {
  }

  lemma TokenStep(s: string, p: nat, tok: string, q: nat, rest: seq<string>)
    requires Plain(tok) && Stands(s, p, tok) && q <= |s|
    requires if p + |tok| < |s| && s[p + |tok|] == ',' then q == p + |tok| + 1 else q == p + |tok| && ListEnds(s, q)
    requires ChainTokens(s, q) == rest
    ensures ChainTokens(s, p) == [tok] + rest && ListEnd(s, p) == ListEnd(s, q)
  {
    ChainEndAt(s, p, tok);
    SliceStands(s, p, tok);
    TokensUnfold(s, p, p + |tok|, q);
  }

  lemma {:induction false} TokensAt(s: string, p: nat, tokens: seq<string>)
    requires tokens != [] && (forall c :: 0 <= c < |tokens| ==> Plain(tokens[c])) && Stands(s, p, JoinTokens(tokens))
    requires ListEnds(s, p + |JoinTokens(tokens)|)
    ensures ChainTokens(s, p) == tokens && ListEnd(s, p) == p + |JoinTokens(tokens)|
    decreases |tokens|
  {
    var tok := tokens[0];
    if |tokens| == 1 {
      TokenStep(s, p, tok, p + |tok|, []);
    } else {
      StandsApart(s, p, tok, ',', JoinTokens(tokens[1..]));
      TokensAt(s, p + |tok| + 1, tokens[1..]);
      TokenStep(s, p, tok, p + |tok| + 1, tokens[1..]);
    }
  }

  lemma EntryStands(s: string, p: nat, e: Entry)
    requires PlainEntry(e) && Stands(s, p, EntryText(e)) && ListEnds(s, p + |EntryText(e)|)
    ensures EntryAt(s, p) == e && ListEnd(s, AfterThread(s, p)) == p + |EntryText(e)|
  {
    StandsApart(s, p, e.thread, ':', JoinTokens(e.chains));
    ThreadEndAt(s, p, e.thread);
    TokensAt(s, p + |e.thread| + 1, e.chains);
    SliceStands(s, p, e.thread);
  }

  lemma EntryStep(s: string, p: nat, e: Entry, text: string, q: nat, rest: seq<Entry>)
    requires PlainEntry(e) && text == EntryText(e) && Stands(s, p, text) && ListEnds(s, p + |text|)
    requires q == (if p + |text| < |s| then p + |text| + 1 else p + |text|) && Entries(s, q) == rest
    ensures Entries(s, p) == [e] + rest
  {
    EntryStands(s, p, e);
  }

  lemma FirstEntry(s: string, p: nat, es: seq<Entry>) returns (text: string)
    requires |es| > 1 && PlainEntries(es) && Stands(s, p, Render(es))
    ensures text == EntryText(es[0]) && Stands(s, p, text) && |Render(es)| == |text| + 1 + |Render(es[1..])|
    ensures p + |text| < |s| && s[p + |text|] == ';' && Stands(s, p + |text| + 1, Render(es[1..]))
  {
    text := EntryText(es[0]);
    StandsApart(s, p, text, ';', Render(es[1..]));
  }

  lemma {:induction false} EntriesAt(s: string, p: nat, es: seq<Entry>)
    requires es != [] && PlainEntries(es) && Stands(s, p, Render(es)) && p + |Render(es)| == |s|
    ensures Entries(s, p) == es
    decreases |es|
  {
    if |es| == 1 {
      EntryStep(s, p, es[0], Render(es), |s|, []);
    } else {
      var text := FirstEntry(s, p, es);
      EntriesAt(s, p + |text| + 1, es[1..]);
      EntryStep(s, p, es[0], text, p + |text| + 1, es[1..]);
    }
  }

  // ----- the counts agree with the entries

  lemma {:induction false} OccursAdd(a: string, b: string, ch: char)
    ensures Occurs(a + b, ch) == Occurs(a, ch) + Occurs(b, ch)
    decreases |b|
  {
    if b == [] {
      assert a + b == a;
    } else {
      var n := |b| - 1;
      assert (a + b)[..|a + b| - 1] == a + b[..n];
      OccursAdd(a, b[..n], ch);
    }
  }

  lemma {:induction false} OccursNot(s: string, ch: char)
    requires forall k :: 0 <= k < |s| ==> s[k] != ch
    ensures Occurs(s, ch) == 0
  {
    if s != [] { OccursNot(s[..|s| - 1], ch); }
  }

  lemma OccursOne(x: char, ch: char)
    ensures Occurs([x], ch) == if x == ch then 1 else 0
  {
    assert [x][..0] == [];
  }

  lemma {:induction false} JoinOccurs(tokens: seq<string>)
    requires tokens != [] && forall c :: 0 <= c < |tokens| ==> Plain(tokens[c])
    ensures Occurs(JoinTokens(tokens), ',') == |tokens| - 1 && Occurs(JoinTokens(tokens), ';') == 0
  {
    OccursNot(tokens[0], ',');
    OccursNot(tokens[0], ';');
    if |tokens| > 1 {
      JoinOccurs(tokens[1..]);
      forall ch: char
        ensures Occurs(JoinTokens(tokens), ch) ==
          Occurs(tokens[0], ch) + (if ch == ',' then 1 else 0) + Occurs(JoinTokens(tokens[1..]), ch)
      {
        OccursAdd(tokens[0] + [','], JoinTokens(tokens[1..]), ch);
        OccursAdd(tokens[0], [','], ch);
        OccursOne(',', ch);
      }
    }
  }

  lemma EntryOccurs(e: Entry)
    requires PlainEntry(e)
    ensures Occurs(EntryText(e), ',') == |e.chains| - 1 && Occurs(EntryText(e), ';') == 0
  {
    forall ch: char
      ensures Occurs(EntryText(e), ch) ==
        Occurs(e.thread, ch) + (if ch == ':' then 1 else 0) + Occurs(JoinTokens(e.chains), ch)
    {
      OccursAdd(e.thread + [':'], JoinTokens(e.chains), ch);
      OccursAdd(e.thread, [':'], ch);
      OccursOne(':', ch);
    }
    OccursNot(e.thread, ',');
    OccursNot(e.thread, ';');
    JoinOccurs(e.chains);
  }

  lemma {:induction false} RenderThreads(es: seq<Entry>)
    requires es != [] && PlainEntries(es)
    ensures ThreadCount(Render(es)) == |es|
  {
    EntryOccurs(es[0]);
    if |es| > 1 {
      OccursAdd(EntryText(es[0]) + [';'], Render(es[1..]), ';');
      OccursAdd(EntryText(es[0]), [';'], ';');
      OccursOne(';', ';');
      RenderThreads(es[1..]);
    }
  }

  lemma {:induction false} OccursAt(s: string, k: nat, ch: char)
    requires k < |s| && s[k] == ch
    ensures Occurs(s, ch) > 0
  {
    if k < |s| - 1 { OccursAt(s[..|s| - 1], k, ch); }
  }

  lemma RenderChains(es: seq<Entry>)
    requires es != [] && PlainEntries(es)
    ensures ChainCount(Render(es)) == |es[0].chains|
  {
    var s, text := Render(es), EntryText(es[0]);
    EntryOccurs(es[0]);
    forall k: nat | k < |text| ensures text[k] != ';' { if text[k] == ';' { OccursAt(text, k, ';'); } }
    assert s[..|text|] == text;
    assert |es| > 1 ==> s[|text|] == ';';
    assert FirstList(s) == |text|;
  }

  // ----- outcome of a well-formed map

  predicate ShortEntry(e: Entry) {
    |e.thread| < BUFFER && forall c :: 0 <= c < |e.chains| ==> |e.chains[c]| < BUFFER
  }

  lemma {:induction false} ChainFaultIff(tokens: seq<string>, c: nat, chains: nat)
    ensures ChainFault(tokens, c, chains).None? <==>
      (tokens == [] || c + |tokens| <= chains) && forall k :: 0 <= k < |tokens| ==> |tokens[k]| < BUFFER
  {
    if tokens != [] {
      ChainFaultIff(tokens[1..], c + 1, chains);
      assert forall k :: 1 <= k < |tokens| ==> tokens[k] == tokens[1..][k - 1];
    }
  }

  lemma {:induction false} ScanFaultIff(es: seq<Entry>, chains: nat)
    ensures ScanFault(es, chains).None? <==>
      forall t :: 0 <= t < |es| ==> ShortEntry(es[t]) && (es[t].chains == [] || |es[t].chains| <= chains)
  {
    if es != [] {
      ChainFaultIff(es[0].chains, 0, chains);
      ScanFaultIff(es[1..], chains);
      assert forall t :: 1 <= t < |es| ==> es[t] == es[1..][t - 1];
    }
  }

  /** A map is placed exactly when its text gives every cell of the table once and every token fits. */
  lemma PlacedIff(s: string, domains: nat)
    requires domains > 0
    ensures MapOutcome(s, domains).Placed? <==>
      && Full(Entries(s, 0), ThreadCount(s), ChainCount(s))
      && forall t :: 0 <= t < |Entries(s, 0)| ==> ShortEntry(Entries(s, 0)[t])
  {
    ScanFaultIff(Entries(s, 0), ChainCount(s));
  }

  /** Every rectangular map of plain tokens is read as written. */
  lemma RenderedPlaced(es: seq<Entry>, domains: nat)
    requires es != [] && PlainEntries(es) && domains > 0
    requires forall t :: 0 <= t < |es| ==> ShortEntry(es[t]) && |es[t].chains| == |es[0].chains|
    ensures MapOutcome(Render(es), domains) ==
      Placed(|es|, |es[0].chains|, ThreadCells(es, domains), ChainCells(es, domains))
  {
    EntriesAt(Render(es), 0, es);
    RenderThreads(es);
    RenderChains(es);
    PlacedIff(Render(es), domains);
  }

  // ----- the printer

  function Texts(row: seq<nat>): (tokens: seq<string>)
    ensures |tokens| == |row|
  {
    seq(|row|, c requires 0 <= c < |row| => Printed(row[c]))
  }

  predicate Rectangular(threadDomain: seq<nat>, chainDomain: seq<seq<nat>>, chains: nat) {
    && |threadDomain| == |chainDomain| > 0 && chains > 0
    && forall t :: 0 <= t < |chainDomain| ==> |chainDomain[t]| == chains
  }

  function EntriesFor(threadDomain: seq<nat>, chainDomain: seq<seq<nat>>): (es: seq<Entry>)
    requires |threadDomain| == |chainDomain|
    ensures |es| == |threadDomain|
  {
    seq(|threadDomain|, t requires 0 <= t < |threadDomain| => Entry(Printed(threadDomain[t]), Texts(chainDomain[t])))
  }

  lemma {:induction false} JoinAppend(tokens: seq<string>, tok: string)
    requires tokens != []
    ensures JoinTokens(tokens + [tok]) == JoinTokens(tokens) + [','] + tok
  {
    var more := tokens + [tok];
    if |tokens| > 1 {
      assert more[1..] == tokens[1..] + [tok];
      JoinAppend(tokens[1..], tok);
    } else {
      assert more[1..] == [tok];
    }
  }

  lemma {:induction false} RenderAppend(es: seq<Entry>, e: Entry)
    requires es != [] && Listed(es) && e.chains != []
    ensures Render(es + [e]) == Render(es) + [';'] + EntryText(e)
  {
    var more := es + [e];
    if |es| > 1 {
      assert more[1..] == es[1..] + [e];
      RenderAppend(es[1..], e);
    } else {
      assert more[1..] == [e];
    }
  }

  method PrintEntry(thread: nat, row: seq<nat>) returns (out: string)
    requires row != []
    ensures out == EntryText(Entry(Printed(thread), Texts(row)))
  {
    ghost var all := Texts(row);
    out := Printed(thread) + [':'];
    out := out + Printed(row[0]);
    assert all[..1] == [all[0]];
    for j := 1 to |row|
      invariant out == Printed(thread) + [':'] + JoinTokens(all[..j])
    {
      assert all[..j + 1] == all[..j] + [all[j]];
      JoinAppend(all[..j], all[j]);
      out := out + [','] + Printed(row[j]);
    }
    assert all[..|row|] == all;
  }

  /** The domain map as the output prints it. */
  method PrintMap(threadDomain: seq<nat>, chainDomain: seq<seq<nat>>, chains: nat) returns (out: string)
    requires Rectangular(threadDomain, chainDomain, chains)
    ensures out == Render(EntriesFor(threadDomain, chainDomain))
  {
    ghost var all := EntriesFor(threadDomain, chainDomain);
    out := PrintEntry(threadDomain[0], chainDomain[0]);
    assert all[..1] == [all[0]];
    for i := 1 to |threadDomain|
      invariant out == Render(all[..i])
    {
      var entry := PrintEntry(threadDomain[i], chainDomain[i]);
      assert all[..i + 1] == all[..i] + [all[i]];
      RenderAppend(all[..i], all[i]);
      out := out + [';'] + entry;
    }
    assert all[..|threadDomain|] == all;
  }

  // ----- round trip

  lemma SmallMod(n: nat, d: nat)
    requires n < d
    ensures n % d == n
  {
  }

  lemma ShortText(n: nat)
    requires n <= 0x7fff_ffff
    ensures |Printed(n)| < BUFFER
  {
    TenDigits();
    PrintedLength(n, 10);
  }

  lemma DomainText(n: nat, domains: nat)
    requires n < domains <= 0x7fff_ffff
    ensures Plain(Printed(n)) && |Printed(n)| < BUFFER && NumberOf(Printed(n)) % domains == n
  {
    ShortText(n);
    PrintedParses(n);
    SmallMod(n, domains);
  }

  lemma TenDigits()
    ensures Pow10(10) == 10_000_000_000
  {
    assert Pow10(5) == 100_000;
  }

  /** A placement within the domains is restored from its text: counts and both tables. */
  lemma RoundTrip(threadDomain: seq<nat>, chainDomain: seq<seq<nat>>, chains: nat, domains: nat)
    requires Rectangular(threadDomain, chainDomain, chains) && 0 < domains <= 0x7fff_ffff
    requires forall t :: 0 <= t < |threadDomain| ==> threadDomain[t] < domains
    requires forall t, c :: 0 <= t < |chainDomain| && 0 <= c < chains ==> chainDomain[t][c] < domains
    ensures MapOutcome(Render(EntriesFor(threadDomain, chainDomain)), domains) ==
      Placed(|threadDomain|, chains, threadDomain, chainDomain)
  {
    var es := EntriesFor(threadDomain, chainDomain);
    forall t | 0 <= t < |es|
      ensures PlainEntry(es[t]) && ShortEntry(es[t]) && NumberOf(es[t].thread) % domains == threadDomain[t]
    {
      DomainText(threadDomain[t], domains);
      forall c | 0 <= c < chains
        ensures Plain(es[t].chains[c]) && |es[t].chains[c]| < BUFFER
      {
        DomainText(chainDomain[t][c], domains);
      }
    }
    forall t | 0 <= t < |es| ensures RowCells(es[t].chains, domains) == chainDomain[t] {
      forall c | 0 <= c < chains
        ensures NumberOf(es[t].chains[c]) % domains == chainDomain[t][c]
      {
        DomainText(chainDomain[t][c], domains);
      }
    }
    RenderedPlaced(es, domains);
  }
}
