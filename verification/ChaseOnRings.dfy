/** The emitted function called on the rings that the init functions build. */
module ChaseOnRings {
  import opened NumberTheory
  import opened Geometry
  import opened Ring
  import opened ByteMemory
  import opened ChaseCode
  import opened ChaseRefines
  import opened DataAccesses

  /** A chain in memory: the address of its first link and its build order. */
  datatype Chain = Chain(base: int, order: seq<nat>)

  function LinkAddr(ch: Chain, x: int): int { ch.base + 16 * x }

  function Root(ch: Chain): int
    requires ch.order != []
  {
    LinkAddr(ch, ch.order[0])
  }

  ghost predicate IsChain(g: Geometry, ch: Chain) {
    ch.base % 16 == 0 && ch.order != [] && InMemory(ch.order, g.linksPerChain)
  }

  ghost predicate InRegion(g: Geometry, ch: Chain, a: int) {
    ch.base <= a < ch.base + 16 * g.linksPerChain
  }

  /** Link x points at link y. */
  ghost predicate Points(mem: Memory, ch: Chain, x: nat, y: nat) {
    Word(mem, LinkAddr(ch, x)) == LinkAddr(ch, y)
  }

  /** The link points at its successor in the build order. */
  ghost predicate Linked(mem: Memory, ch: Chain, x: nat) {
    x in ch.order ==> Points(mem, ch, x, Successor(ch.order, x))
  }

  /** Every byte of the chain is mapped. */
  ghost predicate RegionMapped(g: Geometry, mem: Memory, ch: Chain) {
    forall a :: InRegion(g, ch, a) ==> a in mem.Keys
  }

  /** The chain is mapped and the links of the ring point at their successors. */
  ghost predicate LaidOut(g: Geometry, mem: Memory, ch: Chain) {
    && IsChain(g, ch) && RegionMapped(g, mem, ch)
    && forall x: nat {:trigger Linked(mem, ch, x)} :: Linked(mem, ch, x)
  }

  /** The words of a link array placed at the base of a chain. */
  ghost predicate Image(g: Geometry, mem: Memory, ch: Chain, links: seq<Link>) {
    && RegionMapped(g, mem, ch)
    && forall x: nat :: x < |links| ==>
         && Word(mem, LinkAddr(ch, x)) == LinkAddr(ch, links[x].next)
         && Word(mem, LinkAddr(ch, x) + DATA) == links[x].data
  }

  /** Memory that holds the result of an init function is laid out. */
  lemma InitLaysOut(g: Geometry, mem: Memory, ch: Chain, links: seq<Link>)
    requires IsChain(g, ch) && |links| == g.linksPerChain && Image(g, mem, ch, Closed(links, ch.order))
    ensures LaidOut(g, mem, ch)
  {
    forall x: nat {:trigger Linked(mem, ch, x)} ensures Linked(mem, ch, x) {
      if x in ch.order { InitLink(g, mem, ch, links, x); }
    }
  }

  lemma InitLink(g: Geometry, mem: Memory, ch: Chain, links: seq<Link>, x: nat)
    requires IsChain(g, ch) && |links| == g.linksPerChain && Image(g, mem, ch, Closed(links, ch.order)) && x in ch.order
    ensures Points(mem, ch, x, Successor(ch.order, x))
  {
    ClosedAt(links, ch.order, x);
  }

  lemma NextLink(g: Geometry, mem: Memory, ch: Chain, x: nat)
    requires LaidOut(g, mem, ch) && x in ch.order
    ensures Points(mem, ch, x, Successor(ch.order, x))
  {
    assert Linked(mem, ch, x);
  }

  lemma {:induction false} AtIsWalk(g: Geometry, mem: Memory, ch: Chain, x: nat, t: nat)
    requires LaidOut(g, mem, ch) && x in ch.order
    ensures At(mem, LinkAddr(ch, x), t) == LinkAddr(ch, Walk(ch.order, x, t))
    decreases t
  {
    if t > 0 {
      AtIsWalk(g, mem, ch, x, t - 1);
      NextLink(g, mem, ch, Walk(ch.order, x, t - 1));
    }
  }

  /** Chain 0 is home for the first time after as many rounds as its ring has hops. */
  lemma HomeAfterRing(g: Geometry, mem: Memory, ch: Chain)
    requires LaidOut(g, mem, ch)
    ensures HomeAfter(mem, Root(ch), RingLength(ch.order))
  {
    var root, k := ch.order[0], RingLength(ch.order);
    AtIsWalk(g, mem, ch, root, k);
    HopsArrive(ch.order, root);
    forall j | 1 <= j < k ensures At(mem, Root(ch), j) != Root(ch) {
      AtIsWalk(g, mem, ch, root, j);
      HopsClimb(ch.order, root, j);
    }
  }

  // ----- all chains of a thread together

  /** The chains and the array of roots do not overlap. */
  ghost predicate Apart(g: Geometry, chains: seq<Chain>, arg: int) {
    && (forall i, j, a :: 0 <= i < j < |chains| && InRegion(g, chains[i], a) ==> !InRegion(g, chains[j], a))
    && (forall i, a :: 0 <= i < |chains| && InRegion(g, chains[i], a) ==> a < arg || arg + 8 * |chains| <= a)
  }

  ghost function RingAddrs(ch: Chain): set<int> {
    set x | x in ch.order :: LinkAddr(ch, x)
  }

  /** The `next` fields of a chain that no store touches. */
  ghost function NextAddrs(c: Config, g: Geometry, ch: Chain): set<int> {
    set y | y in Below(g.linksPerChain) && !(Stores(c) && Touches(c, ch.order, y)) :: LinkAddr(ch, y)
  }

  ghost function AllRings(chains: seq<Chain>): set<int> {
    set i, a | 0 <= i < |chains| && a in RingAddrs(chains[i]) :: a
  }

  ghost function RootWords(chains: seq<Chain>, arg: int): set<int> {
    set i | 0 <= i < |chains| :: arg + 8 * i
  }

  /** The words that a run leaves as they are: the roots, and every `next` field of every chain that no
      store touches. In an aligned configuration, and for loads, these are all `next` fields. */
  ghost function Protected(c: Config, g: Geometry, chains: seq<Chain>, arg: int): set<int> {
    (set i, a | 0 <= i < |chains| && a in NextAddrs(c, g, chains[i]) :: a) + RootWords(chains, arg)
  }

  /** Data accesses stay inside the chains and stores spare the rings. */
  ghost predicate Fits(c: Config, g: Geometry, chains: seq<Chain>) {
    && |chains| == c.chains > 0
    && forall i :: 0 <= i < |chains| ==> StaysInside(c, g, chains[i].order) && Spared(c, chains[i].order)
  }

  ghost predicate AllLaidOut(g: Geometry, mem: Memory, chains: seq<Chain>) {
    forall i :: 0 <= i < |chains| ==> LaidOut(g, mem, chains[i])
  }

  ghost function Roots(chains: seq<Chain>): (r: seq<int>)
    requires forall i :: 0 <= i < |chains| ==> chains[i].order != []
    ensures |r| == |chains| && forall i :: 0 <= i < |r| ==> r[i] == Root(chains[i])
  {
    seq(|chains|, i requires 0 <= i < |chains| => Root(chains[i]))
  }

  lemma WordInRegion(g: Geometry, mem: Memory, ch: Chain, a: int)
    requires RegionMapped(g, mem, ch) && ch.base <= a && a + 8 <= ch.base + 16 * g.linksPerChain
    ensures Has(mem, a)
  {
    forall b | a <= b < a + 8 ensures b in mem.Keys { assert InRegion(g, ch, b); }
  }

  lemma AccessInside(c: Config, g: Geometry, ch: Chain, x: nat, j: nat)
    requires StaysInside(c, g, ch.order) && x in ch.order && j < DataCount(c)
    ensures var a := LinkAddr(ch, x) + Offset(c, j); ch.base <= a && a + 8 <= ch.base + 16 * g.linksPerChain
  {
    OffsetPositive(c, j);
  }

  /** A word inside chain i misses the protected words of the other chains and the roots. */
  lemma OwnRegion(c: Config, g: Geometry, chains: seq<Chain>, arg: int, i: nat, a: int, w: int)
    requires Apart(g, chains, arg) && i < |chains|
    requires chains[i].base <= a && a + 8 <= chains[i].base + 16 * g.linksPerChain
    requires w in RootWords(chains, arg) || exists k :: 0 <= k < |chains| && k != i && w in NextAddrs(c, g, chains[k])
    ensures !Overlap(a, w)
  {
    if Overlap(a, w) {
      var b := if a < w then w else a;
      assert InRegion(g, chains[i], b);
      if w !in RootWords(chains, arg) {
        var k :| 0 <= k < |chains| && k != i && w in NextAddrs(c, g, chains[k]);
        assert InRegion(g, chains[k], b);
      }
      assert false;
    }
  }

  lemma OwnNext(c: Config, g: Geometry, ch: Chain, x: nat, j: nat, w: int)
    requires Stores(c) && x in ch.order && j < DataCount(c) && w in NextAddrs(c, g, ch)
    ensures !Overlap(LinkAddr(ch, x) + Offset(c, j), w)
  {
    var y :| y in Below(g.linksPerChain) && !Touches(c, ch.order, y) && w == LinkAddr(ch, y);
    assert !Overlap(16 * x + Offset(c, j), 16 * y);
  }

  lemma AccessMisses(c: Config, g: Geometry, chains: seq<Chain>, arg: int, i: nat, x: nat, j: nat)
    requires Fits(c, g, chains) && Apart(g, chains, arg) && Stores(c) && i < |chains| && x in chains[i].order
    requires j < DataCount(c)
    ensures Misses(LinkAddr(chains[i], x) + Offset(c, j), Protected(c, g, chains, arg))
  {
    var a := LinkAddr(chains[i], x) + Offset(c, j);
    AccessInside(c, g, chains[i], x, j);
    forall w | w in Protected(c, g, chains, arg) ensures !Overlap(a, w) {
      if w in NextAddrs(c, g, chains[i]) {
        OwnNext(c, g, chains[i], x, j, w);
      } else {
        OwnRegion(c, g, chains, arg, i, a, w);
      }
    }
  }

  lemma RingLink(g: Geometry, chains: seq<Chain>, mem: Memory, a: int) returns (i: nat, x: nat)
    requires AllLaidOut(g, mem, chains) && a in AllRings(chains)
    ensures i < |chains| && x in chains[i].order && x < g.linksPerChain && a == LinkAddr(chains[i], x)
    ensures LaidOut(g, mem, chains[i])
  {
    i :| 0 <= i < |chains| && a in RingAddrs(chains[i]);
    assert LaidOut(g, mem, chains[i]);
    x :| x in chains[i].order && a == LinkAddr(chains[i], x);
  }

  lemma RingLinkIn(chains: seq<Chain>, i: nat, x: nat)
    requires i < |chains| && x in chains[i].order
    ensures LinkAddr(chains[i], x) in AllRings(chains)
  {
    assert LinkAddr(chains[i], x) in RingAddrs(chains[i]);
  }

  lemma ProtectedLink(c: Config, g: Geometry, chains: seq<Chain>, arg: int, i: nat, x: nat)
    requires i < |chains| && x < g.linksPerChain && !(Stores(c) && Touches(c, chains[i].order, x))
    ensures LinkAddr(chains[i], x) in Protected(c, g, chains, arg)
  {
    assert x in Below(g.linksPerChain);
    assert LinkAddr(chains[i], x) in NextAddrs(c, g, chains[i]);
  }

  lemma RingNode(c: Config, g: Geometry, chains: seq<Chain>, arg: int, mem: Memory, a: int)
    requires Fits(c, g, chains) && AllLaidOut(g, mem, chains) && a in AllRings(chains)
    ensures a in Protected(c, g, chains, arg) && Has(mem, a) && Word(mem, a) in AllRings(chains)
  {
    var i, x := RingLink(g, chains, mem, a);
    ProtectedLink(c, g, chains, arg, i, x);
    WordInRegion(g, mem, chains[i], a);
    NextLink(g, mem, chains[i], x);
    RingLinkIn(chains, i, Successor(chains[i].order, x));
  }

  lemma RingsClosed(c: Config, g: Geometry, chains: seq<Chain>, arg: int, mem: Memory)
    requires Fits(c, g, chains) && AllLaidOut(g, mem, chains)
    ensures AllRings(chains) <= Protected(c, g, chains, arg) && NodesMapped(mem, AllRings(chains))
    ensures NodesClosed(mem, AllRings(chains))
  {
    var nodes := AllRings(chains);
    forall a | a in nodes ensures a in Protected(c, g, chains, arg) && Has(mem, a) && Word(mem, a) in nodes {
      RingNode(c, g, chains, arg, mem, a);
    }
  }

  lemma RingsFree(c: Config, g: Geometry, chains: seq<Chain>, arg: int, mem: Memory)
    requires Fits(c, g, chains) && Apart(g, chains, arg) && AllLaidOut(g, mem, chains)
    ensures AccessesMapped(c, mem, AllRings(chains))
    ensures Stores(c) ==> StoresMiss(c, AllRings(chains), Protected(c, g, chains, arg))
  {
    var nodes := AllRings(chains);
    forall a, j {:trigger a in nodes, Offset(c, j)} | a in nodes && 0 <= j < DataCount(c)
      ensures Has(mem, a + Offset(c, j))
      ensures Stores(c) ==> Misses(a + Offset(c, j), Protected(c, g, chains, arg))
    {
      var i, x := RingLink(g, chains, mem, a);
      AccessInside(c, g, chains[i], x, j);
      WordInRegion(g, mem, chains[i], a + Offset(c, j));
      if Stores(c) { AccessMisses(c, g, chains, arg, i, x, j); }
    }
  }

  /** Rings laid out in separate memories meet the needs of the emitted function. */
  lemma RingsAreSound(c: Config, g: Geometry, chains: seq<Chain>, arg: int, mem: Memory)
    requires Fits(c, g, chains) && Apart(g, chains, arg) && AllLaidOut(g, mem, chains)
    ensures Sound(c, mem, AllRings(chains), Protected(c, g, chains, arg))
    ensures OnNodes(c, AllRings(chains), Roots(chains))
  {
    RingsClosed(c, g, chains, arg, mem);
    RingsFree(c, g, chains, arg, mem);
    forall i | 0 <= i < |chains| ensures Root(chains[i]) in AllRings(chains) {
      assert chains[i].order[0] in chains[i].order;
      RingLinkIn(chains, i, chains[i].order[0]);
    }
  }

  // ----- one call, and any number of calls

  function CallSteps(c: Config, k: nat): nat { |Prologue(c)| + RoundSteps(c, k) }

  lemma BenchReturns(c: Config, g: Geometry, chains: seq<Chain>, arg: int, mem: Memory, flag: bool, k: nat)
    returns (m: Machine)
    requires Fits(c, g, chains) && Apart(g, chains, arg) && AllLaidOut(g, mem, chains)
    requires RootsAt(mem, arg, Roots(chains)) && k == RingLength(chains[0].order)
    ensures Reaches(Program(c), State(0, Call(arg, mem, flag)), CallSteps(c, k), State(|Program(c)|, m))
    ensures CallDone(c, mem, Protected(c, g, chains, arg), arg, Roots(chains), k, m)
  {
    RingsAreSound(c, g, chains, arg, mem);
    HomeAfterRing(g, mem, chains[0]);
    m := ChaseRefinesSpec(c, mem, AllRings(chains), Protected(c, g, chains, arg), arg, Roots(chains), k, flag);
  }

  lemma BenchPosition(c: Config, g: Geometry, chains: seq<Chain>, arg: int, mem: Memory, fixed: set<int>, k: nat,
                      m: Machine, i: nat)
    requires AllLaidOut(g, mem, chains) && CallDone(c, mem, fixed, arg, Roots(chains), k, m) && i < c.chains
    ensures Pos(i) in m.regs && m.regs[Pos(i)] == LinkAddr(chains[i], Walk(chains[i].order, chains[i].order[0], k))
  {
    AtIsWalk(g, mem, chains[i], chains[i].order[0], k);
  }

  /** One `bench` call on the rings: it returns, without a fault, after as many rounds as the ring of
      chain 0 has hops; every chain has moved that many hops along its own ring; the accesses are those
      of the specification, in order; and no protected word has changed: no root, no `next` field of a ring,
      and no other `next` field that the stores do not reach. */
  lemma BenchWalksRings(c: Config, g: Geometry, chains: seq<Chain>, arg: int, mem: Memory, flag: bool)
    returns (m: Machine)
    requires Fits(c, g, chains) && Apart(g, chains, arg) && AllLaidOut(g, mem, chains)
    requires RootsAt(mem, arg, Roots(chains))
    ensures var k := RingLength(chains[0].order);
      && Reaches(Program(c), State(0, Call(arg, mem, flag)), CallSteps(c, k), State(|Program(c)|, m))
      && CallDone(c, mem, Protected(c, g, chains, arg), arg, Roots(chains), k, m)
      && forall i :: 0 <= i < c.chains ==>
           Pos(i) in m.regs && m.regs[Pos(i)] == LinkAddr(chains[i], Walk(chains[i].order, chains[i].order[0], k))
  {
    var k := RingLength(chains[0].order);
    m := BenchReturns(c, g, chains, arg, mem, flag, k);
    forall i | 0 <= i < c.chains
      ensures Pos(i) in m.regs && m.regs[Pos(i)] == LinkAddr(chains[i], Walk(chains[i].order, chains[i].order[0], k))
    {
      BenchPosition(c, g, chains, arg, mem, Protected(c, g, chains, arg), k, m, i);
    }
  }

  /** Without stores, and in aligned configurations, the protected words include every `next` field. */
  lemma AllNextProtected(c: Config, g: Geometry, chains: seq<Chain>, arg: int, i: nat, y: nat)
    requires !Stores(c) || Aligned(c)
    requires i < |chains| && y < g.linksPerChain
    ensures LinkAddr(chains[i], y) in Protected(c, g, chains, arg)
  {
    if Aligned(c) { AlignedMisses(c, chains[i].order); }
    ProtectedLink(c, g, chains, arg, i, y);
  }

  /** Memory that differs from mem outside the protected words only. */
  ghost predicate SameRings(c: Config, g: Geometry, chains: seq<Chain>, arg: int, mem: Memory, mem': Memory) {
    SameFixed(mem, Protected(c, g, chains, arg), mem')
  }

  lemma SameChainLaidOut(c: Config, g: Geometry, chains: seq<Chain>, arg: int, mem: Memory, mem': Memory, i: nat)
    requires Fits(c, g, chains) && i < |chains| && LaidOut(g, mem, chains[i]) && SameRings(c, g, chains, arg, mem, mem')
    ensures LaidOut(g, mem', chains[i])
  {
    var ch := chains[i];
    forall x: nat {:trigger Linked(mem', ch, x)} ensures Linked(mem', ch, x) {
      if x in ch.order {
        ProtectedLink(c, g, chains, arg, i, x);
        NextLink(g, mem, ch, x);
      }
    }
  }

  lemma SameRingsLaidOut(c: Config, g: Geometry, chains: seq<Chain>, arg: int, mem: Memory, mem': Memory)
    requires Fits(c, g, chains) && AllLaidOut(g, mem, chains) && SameRings(c, g, chains, arg, mem, mem')
    ensures AllLaidOut(g, mem', chains)
    ensures RootsAt(mem, arg, Roots(chains)) ==> RootsAt(mem', arg, Roots(chains))
  {
    forall i | 0 <= i < |chains| ensures LaidOut(g, mem', chains[i]) {
      SameChainLaidOut(c, g, chains, arg, mem, mem', i);
    }
    forall i | 0 <= i < |chains| ensures arg + 8 * i in Protected(c, g, chains, arg) {
      assert arg + 8 * i in RootWords(chains, arg);
    }
  }

  /** The accesses of a pass depend on the rings alone. */
  lemma {:induction false} SameRound(c: Config, g: Geometry, chains: seq<Chain>, mem: Memory, mem': Memory, t: nat,
                                     n: nat)
    requires AllLaidOut(g, mem, chains) && AllLaidOut(g, mem', chains) && n <= |chains|
    ensures RoundLog(c, mem, Roots(chains), t, n) == RoundLog(c, mem', Roots(chains), t, n)
    decreases n
  {
    if n > 0 {
      SameRound(c, g, chains, mem, mem', t, n - 1);
      SameAt(g, chains, mem, mem', n - 1, t);
      SameAt(g, chains, mem, mem', n - 1, t + 1);
    }
  }

  lemma SameAt(g: Geometry, chains: seq<Chain>, mem: Memory, mem': Memory, i: nat, t: nat)
    requires AllLaidOut(g, mem, chains) && AllLaidOut(g, mem', chains) && i < |chains|
    ensures At(mem, Roots(chains)[i], t) == At(mem', Roots(chains)[i], t)
  {
    AtIsWalk(g, mem, chains[i], chains[i].order[0], t);
    AtIsWalk(g, mem', chains[i], chains[i].order[0], t);
  }

  lemma {:induction false} SamePass(c: Config, g: Geometry, chains: seq<Chain>, mem: Memory, mem': Memory, k: nat)
    requires AllLaidOut(g, mem, chains) && AllLaidOut(g, mem', chains)
    ensures PassLog(c, mem, Roots(chains), k) == PassLog(c, mem', Roots(chains), k)
    decreases k
  {
    if k > 0 {
      SamePass(c, g, chains, mem, mem', k - 1);
      SameRound(c, g, chains, mem, mem', k - 1, |chains|);
    }
  }

  /** A call that starts in memory mem returns with machine m. */
  ghost predicate CallReturns(c: Config, arg: int, mem: Memory, k: nat, m: Machine) {
    Reaches(Program(c), State(0, Call(arg, mem, false)), CallSteps(c, k), State(|Program(c)|, m))
  }

  /** Memory in which the i-th of successive calls starts. */
  function Before(mem: Memory, ms: seq<Machine>, i: nat): Memory
    requires i <= |ms|
  {
    if i == 0 then mem else ms[i - 1].mem
  }

  /** Machines at the return of successive calls, each starting in the memory the last one left. */
  ghost predicate SuccessiveCalls(c: Config, arg: int, mem: Memory, k: nat, ms: seq<Machine>) {
    forall i :: 0 <= i < |ms| ==> CallReturns(c, arg, Before(mem, ms, i), k, ms[i])
  }

  lemma OneMoreCall(c: Config, arg: int, mem: Memory, k: nat, ms: seq<Machine>, m: Machine)
    requires SuccessiveCalls(c, arg, mem, k, ms) && CallReturns(c, arg, Before(mem, ms, |ms|), k, m)
    ensures SuccessiveCalls(c, arg, mem, k, ms + [m])
  {
    var all := ms + [m];
    forall i | 0 <= i < |all| ensures CallReturns(c, arg, Before(mem, all, i), k, all[i]) {
      assert Before(mem, all, i) == Before(mem, ms, i);
      if i < |ms| { assert all[i] == ms[i]; }
    }
  }

  lemma NextCall(c: Config, g: Geometry, chains: seq<Chain>, arg: int, mem: Memory, mem1: Memory, k: nat)
    returns (m: Machine)
    requires Fits(c, g, chains) && Apart(g, chains, arg) && AllLaidOut(g, mem, chains)
    requires RootsAt(mem, arg, Roots(chains)) && k == RingLength(chains[0].order)
    requires SameRings(c, g, chains, arg, mem, mem1)
    ensures CallReturns(c, arg, mem1, k, m)
    ensures SameRings(c, g, chains, arg, mem, m.mem)
    ensures m.log == EntryLog(arg, c.chains) + PassLog(c, mem, Roots(chains), k)
  {
    SameRingsLaidOut(c, g, chains, arg, mem, mem1);
    m := BenchReturns(c, g, chains, arg, mem1, false, k);
    SamePass(c, g, chains, mem, mem1, k);
    SameTwice(mem, Protected(c, g, chains, arg), mem1, m.mem);
  }

  lemma SameTwice(mem: Memory, fixed: set<int>, mem1: Memory, mem2: Memory)
    requires SameFixed(mem, fixed, mem1) && SameFixed(mem1, fixed, mem2)
    ensures SameFixed(mem, fixed, mem2)
  {
    forall a {:trigger Word(mem2, a)} | a in fixed ensures Word(mem2, a) == Word(mem, a) {
      assert Word(mem2, a) == Word(mem1, a);
    }
  }

  /** Any number of successive `bench` calls walk the same rings: the n-th call makes the same accesses as
      the first, and the protected words, the rings and roots among them, are those of the initial memory. */
  lemma BenchRepeats(c: Config, g: Geometry, chains: seq<Chain>, arg: int, mem: Memory, n: nat)
    returns (ms: seq<Machine>)
    requires Fits(c, g, chains) && Apart(g, chains, arg) && AllLaidOut(g, mem, chains)
    requires RootsAt(mem, arg, Roots(chains))
    ensures |ms| == n && SuccessiveCalls(c, arg, mem, RingLength(chains[0].order), ms)
    ensures SameRings(c, g, chains, arg, mem, Before(mem, ms, |ms|))
    ensures forall i :: 0 <= i < n ==>
      ms[i].log == EntryLog(arg, c.chains) + PassLog(c, mem, Roots(chains), RingLength(chains[0].order))
  {
    var k := RingLength(chains[0].order);
    ghost var log := EntryLog(arg, c.chains) + PassLog(c, mem, Roots(chains), k);
    ms := [];
    for i := 0 to n
      invariant |ms| == i && SuccessiveCalls(c, arg, mem, k, ms)
      invariant SameRings(c, g, chains, arg, mem, Before(mem, ms, |ms|))
      invariant forall j :: 0 <= j < i ==> ms[j].log == log
    {
      var m := NextCall(c, g, chains, arg, mem, Before(mem, ms, |ms|), k);
      OneMoreCall(c, arg, mem, k, ms, m);
      ms := ms + [m];
    }
  }
}
