/** The log of a call as one chain sees it: its own hops around its ring, one after the other. */
module OwnEvents {
  import opened Ring
  import opened ByteMemory
  import opened ChaseCode
  import opened ChaseRefines
  import opened DataAccesses
  import opened ChaseOnRings
  import opened Geometry

  function Addr(e: Event): int {
    match e case Read(a) => a case Write(a, _) => a
  }

  // ----- the events of a hop

  lemma {:induction false} SweepEvent(c: Config, q: int, v: nat, e: Event) returns (j: nat)
    requires e in SweepLog(c, q, v)
    ensures j < v && Addr(e) == q + Offset(c, j)
  {
    if e in SweepLog(c, q, v - 1) { j := SweepEvent(c, q, v - 1, e); } else { j := v - 1; }
  }

  /** An access of a hop from p to q is the `next` field of p or a datum on one of the lines from q on. */
  lemma HopEvent(c: Config, p: int, q: int, e: Event) returns (j: nat)
    requires e in HopLog(c, p, q)
    ensures Addr(e) == p || (j < DataCount(c) && Addr(e) == q + Offset(c, j))
  {
    j := 0;
    if e in AccessLog(c, q) && (c.op.LoadAll? || c.op.StoreAll?) { j := SweepEvent(c, q, ValCount(c), e); }
  }

  /** Every access of a hop lies in the chain that hops. */
  lemma HopInside(c: Config, g: Geometry, ch: Chain, x: nat, y: nat, e: Event)
    requires IsChain(g, ch) && StaysInside(c, g, ch.order) && x in ch.order && y in ch.order
    requires e in HopLog(c, LinkAddr(ch, x), LinkAddr(ch, y))
    ensures InRegion(g, ch, Addr(e))
  {
    var j := HopEvent(c, LinkAddr(ch, x), LinkAddr(ch, y), e);
    if Addr(e) != LinkAddr(ch, x) { AccessInside(c, g, ch, y, j); }
  }

  lemma {:induction false} RootsEvent(arg: int, n: nat, e: Event)
    requires e in RootsLog(arg, n)
    ensures arg <= Addr(e) < arg + 8 * n
  {
    if e in RootsLog(arg, n - 1) { RootsEvent(arg, n - 1, e); }
  }

  // ----- projection of a log to a chain

  /** The events of a log that fall on the chain. */
  ghost function Own(g: Geometry, ch: Chain, log: seq<Event>): seq<Event> {
    if log == [] then []
    else
      var n := |log| - 1;
      Own(g, ch, log[..n]) + if InRegion(g, ch, Addr(log[n])) then [log[n]] else []
  }

  lemma {:induction false} OwnAdd(g: Geometry, ch: Chain, a: seq<Event>, b: seq<Event>)
    ensures Own(g, ch, a + b) == Own(g, ch, a) + Own(g, ch, b)
    decreases |b|
  {
    if b == [] {
      assert a + b == a;
    } else {
      var n := |b| - 1;
      assert (a + b)[..|a + b| - 1] == a + b[..n];
      OwnAdd(g, ch, a, b[..n]);
    }
  }

  lemma {:induction false} OwnAll(g: Geometry, ch: Chain, log: seq<Event>)
    requires forall e :: e in log ==> InRegion(g, ch, Addr(e))
    ensures Own(g, ch, log) == log
  {
    if log != [] { OwnAll(g, ch, log[..|log| - 1]); }
  }

  lemma {:induction false} OwnNone(g: Geometry, ch: Chain, log: seq<Event>)
    requires forall e :: e in log ==> !InRegion(g, ch, Addr(e))
    ensures Own(g, ch, log) == []
  {
    if log != [] { OwnNone(g, ch, log[..|log| - 1]); }
  }

  function Concat(logs: seq<seq<Event>>, n: nat): seq<Event>
    requires n <= |logs|
  {
    if n == 0 then [] else Concat(logs, n - 1) + logs[n - 1]
  }

  lemma OwnSum(g: Geometry, ch: Chain, a: seq<Event>, b: seq<Event>, x: seq<Event>, y: seq<Event>)
    requires Own(g, ch, a) == x && Own(g, ch, b) == y
    ensures Own(g, ch, a + b) == x + y
  {
    OwnAdd(g, ch, a, b);
  }

  lemma {:induction false} OwnNothing(g: Geometry, ch: Chain, logs: seq<seq<Event>>, n: nat)
    requires n <= |logs| && forall m :: 0 <= m < n ==> Own(g, ch, logs[m]) == []
    ensures Own(g, ch, Concat(logs, n)) == []
    decreases n
  {
    if n > 0 {
      OwnNothing(g, ch, logs, n - 1);
      OwnSum(g, ch, Concat(logs, n - 1), logs[n - 1], [], []);
    }
  }

  /** Of logs one after the other, only the i-th falls on the chain. */
  lemma {:induction false} OwnConcat(g: Geometry, ch: Chain, logs: seq<seq<Event>>, i: nat, n: nat, own: seq<Event>)
    requires i < n <= |logs| && Own(g, ch, logs[i]) == own
    requires forall m :: 0 <= m < |logs| && m != i ==> Own(g, ch, logs[m]) == []
    ensures Own(g, ch, Concat(logs, n)) == own
    decreases n
  {
    var before := Concat(logs, n - 1);
    if n - 1 == i {
      OwnNothing(g, ch, logs, i);
      OwnSum(g, ch, before, logs[i], [], own);
      assert [] + own == own;
    } else {
      OwnConcat(g, ch, logs, i, n - 1, own);
      OwnSum(g, ch, before, logs[n - 1], own, []);
      assert own + [] == own;
    }
  }

  // ----- rounds

  /** Link on which a chain stands after t hops. */
  function Stand(ch: Chain, t: nat): nat
    requires ch.order != []
  {
    Walk(ch.order, ch.order[0], t)
  }

  /** The log of the chain's hop number t. */
  function HopOf(c: Config, ch: Chain, t: nat): seq<Event>
    requires ch.order != []
  {
    HopLog(c, LinkAddr(ch, Stand(ch, t)), LinkAddr(ch, Stand(ch, t + 1)))
  }

  ghost predicate AllInside(c: Config, g: Geometry, chains: seq<Chain>) {
    |chains| == c.chains > 0 && forall i :: 0 <= i < |chains| ==> StaysInside(c, g, chains[i].order)
  }

  lemma OwnHop(c: Config, g: Geometry, chains: seq<Chain>, arg: int, mem: Memory, i: nat, m: nat, t: nat)
    requires AllInside(c, g, chains) && Apart(g, chains, arg) && AllLaidOut(g, mem, chains) && i < |chains|
    requires m < |chains|
    ensures Own(g, chains[i], HopOf(c, chains[m], t)) == if m == i then HopOf(c, chains[i], t) else []
  {
    var hop := HopOf(c, chains[m], t);
    forall e | e in hop ensures InRegion(g, chains[m], Addr(e)) {
      HopInside(c, g, chains[m], Stand(chains[m], t), Stand(chains[m], t + 1), e);
    }
    if m == i { OwnAll(g, chains[i], hop); } else { OwnNone(g, chains[i], hop); }
  }

  lemma HopAt(c: Config, g: Geometry, chains: seq<Chain>, mem: Memory, t: nat, n: nat)
    requires AllLaidOut(g, mem, chains) && n < |chains|
    ensures HopLog(c, At(mem, Roots(chains)[n], t), At(mem, Roots(chains)[n], t + 1)) == HopOf(c, chains[n], t)
  {
    var ch := chains[n];
    AtIsWalk(g, mem, ch, ch.order[0], t);
    AtIsWalk(g, mem, ch, ch.order[0], t + 1);
  }

  lemma {:induction false} RoundIsConcat(c: Config, mem: Memory, roots: seq<int>, t: nat, hops: seq<seq<Event>>, n: nat)
    requires n <= |roots| == |hops|
    requires forall m :: 0 <= m < |roots| ==> HopLog(c, At(mem, roots[m], t), At(mem, roots[m], t + 1)) == hops[m]
    ensures RoundLog(c, mem, roots, t, n) == Concat(hops, n)
    decreases n
  {
    if n > 0 { RoundIsConcat(c, mem, roots, t, hops, n - 1); }
  }

  /** The logs of all chains' hops in round t. */
  function RoundHops(c: Config, chains: seq<Chain>, t: nat): (hops: seq<seq<Event>>)
    requires forall i :: 0 <= i < |chains| ==> chains[i].order != []
    ensures |hops| == |chains| && forall n :: 0 <= n < |chains| ==> hops[n] == HopOf(c, chains[n], t)
  {
    seq(|chains|, n requires 0 <= n < |chains| => HopOf(c, chains[n], t))
  }

  lemma RoundOfHops(c: Config, g: Geometry, chains: seq<Chain>, mem: Memory, t: nat)
    requires AllLaidOut(g, mem, chains)
    ensures RoundLog(c, mem, Roots(chains), t, |chains|) == Concat(RoundHops(c, chains, t), |chains|)
  {
    var hops, roots := RoundHops(c, chains, t), Roots(chains);
    forall m | 0 <= m < |chains| ensures HopLog(c, At(mem, roots[m], t), At(mem, roots[m], t + 1)) == hops[m] {
      HopAt(c, g, chains, mem, t, m);
    }
    RoundIsConcat(c, mem, roots, t, hops, |hops|);
  }

  ghost predicate RoundIs(c: Config, g: Geometry, ch: Chain, mem: Memory, roots: seq<int>, t: nat)
    requires ch.order != []
  {
    Own(g, ch, RoundLog(c, mem, roots, t, |roots|)) == HopOf(c, ch, t)
  }

  /** In a round only the chain's own hop falls on it. */
  lemma OwnRound(c: Config, g: Geometry, chains: seq<Chain>, arg: int, mem: Memory, i: nat, t: nat)
    requires AllInside(c, g, chains) && Apart(g, chains, arg) && AllLaidOut(g, mem, chains) && i < |chains|
    ensures RoundIs(c, g, chains[i], mem, Roots(chains), t)
  {
    var own := OwnOfHops(c, g, chains, arg, mem, i, t);
    RoundOfHops(c, g, chains, mem, t);
  }

  lemma OwnOfHops(c: Config, g: Geometry, chains: seq<Chain>, arg: int, mem: Memory, i: nat, t: nat)
    returns (own: seq<Event>)
    requires AllInside(c, g, chains) && Apart(g, chains, arg) && AllLaidOut(g, mem, chains) && i < |chains|
    ensures own == HopOf(c, chains[i], t) && Own(g, chains[i], Concat(RoundHops(c, chains, t), |chains|)) == own
  {
    var hops := RoundHops(c, chains, t);
    own := hops[i];
    forall m | 0 <= m < |chains| ensures Own(g, chains[i], hops[m]) == if m == i then own else [] {
      OwnHop(c, g, chains, arg, mem, i, m, t);
    }
    OwnConcat(g, chains[i], hops, i, |hops|, own);
  }

  // ----- the whole call

  function HopsOf(c: Config, ch: Chain, k: nat): (hops: seq<seq<Event>>)
    requires ch.order != []
    ensures |hops| == k && forall t :: 0 <= t < k ==> hops[t] == HopOf(c, ch, t)
  {
    seq(k, t requires 0 <= t < k => HopOf(c, ch, t))
  }

  /** The chain's first k hops, one after the other. */
  function Walked(c: Config, ch: Chain, k: nat): seq<Event>
    requires ch.order != []
  {
    Concat(HopsOf(c, ch, k), k)
  }

  function RoundsOf(c: Config, mem: Memory, roots: seq<int>, k: nat): (rounds: seq<seq<Event>>)
    ensures |rounds| == k && forall t :: 0 <= t < k ==> rounds[t] == RoundLog(c, mem, roots, t, |roots|)
  {
    seq(k, t requires 0 <= t < k => RoundLog(c, mem, roots, t, |roots|))
  }

  lemma {:induction false} OwnConcats(g: Geometry, ch: Chain, logs: seq<seq<Event>>, owns: seq<seq<Event>>, n: nat)
    requires n <= |logs| == |owns| && forall t :: 0 <= t < |logs| ==> Own(g, ch, logs[t]) == owns[t]
    ensures Own(g, ch, Concat(logs, n)) == Concat(owns, n)
    decreases n
  {
    if n > 0 {
      OwnConcats(g, ch, logs, owns, n - 1);
      OwnSum(g, ch, Concat(logs, n - 1), logs[n - 1], Concat(owns, n - 1), owns[n - 1]);
    }
  }

  lemma {:induction false} PassIsConcat(c: Config, mem: Memory, roots: seq<int>, rounds: seq<seq<Event>>, k: nat)
    requires k <= |rounds| && forall t :: 0 <= t < |rounds| ==> rounds[t] == RoundLog(c, mem, roots, t, |roots|)
    ensures PassLog(c, mem, roots, k) == Concat(rounds, k)
    decreases k
  {
    if k > 0 { PassIsConcat(c, mem, roots, rounds, k - 1); }
  }

  lemma OwnPass(c: Config, g: Geometry, ch: Chain, mem: Memory, roots: seq<int>, k: nat)
    requires ch.order != [] && forall t :: 0 <= t < k ==> RoundIs(c, g, ch, mem, roots, t)
    ensures Own(g, ch, PassLog(c, mem, roots, k)) == Walked(c, ch, k)
  {
    var rounds, hops := RoundsOf(c, mem, roots, k), HopsOf(c, ch, k);
    forall t | 0 <= t < k ensures Own(g, ch, rounds[t]) == hops[t] { assert RoundIs(c, g, ch, mem, roots, t); }
    PassIsConcat(c, mem, roots, rounds, k);
    OwnConcats(g, ch, rounds, hops, k);
  }

  /** Reading the roots falls on no chain. */
  lemma OwnEntry(g: Geometry, chains: seq<Chain>, arg: int, i: nat)
    requires Apart(g, chains, arg) && i < |chains|
    ensures Own(g, chains[i], EntryLog(arg, |chains|)) == []
  {
    var log := EntryLog(arg, |chains|);
    forall e | e in log ensures !InRegion(g, chains[i], Addr(e)) {
      if e != Read(arg) { RootsEvent(arg, |chains|, e); }
    }
    OwnNone(g, chains[i], log);
  }

  /** What a call does to a chain is that chain's own k hops, in order, and nothing else. */
  lemma CallOwn(c: Config, g: Geometry, chains: seq<Chain>, arg: int, mem: Memory, k: nat, m: Machine, i: nat)
    requires AllInside(c, g, chains) && Apart(g, chains, arg) && AllLaidOut(g, mem, chains) && i < |chains|
    requires m.log == EntryLog(arg, c.chains) + PassLog(c, mem, Roots(chains), k)
    ensures Own(g, chains[i], m.log) == Walked(c, chains[i], k)
  {
    OwnEntry(g, chains, arg, i);
    forall t | 0 <= t < k ensures RoundIs(c, g, chains[i], mem, Roots(chains), t) {
      OwnRound(c, g, chains, arg, mem, i, t);
    }
    OwnPass(c, g, chains[i], mem, Roots(chains), k);
    OwnSum(g, chains[i], EntryLog(arg, c.chains), PassLog(c, mem, Roots(chains), k), [], Walked(c, chains[i], k));
  }
}
