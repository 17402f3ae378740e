/** The pattern shared by the three init functions: append each slot of a build order to the previous
    one, then close the last slot on the root. A slot may occur more than once in the order, in which
    case the later write of its `next` field wins. */
module Ring {
  import opened NumberTheory

  /** One element of chain memory; `next` is an index into the same memory. */
  datatype Link = Link(next: int, data: int)

  predicate InMemory(order: seq<nat>, n: nat) {
    forall k :: 0 <= k < |order| ==> order[k] < n
  }

  function SetNext(mem: seq<Link>, at: nat, to: int): (r: seq<Link>)
    requires at < |mem|
    ensures |r| == |mem|
  {
    mem[at := mem[at].(next := to)]
  }

  /** Memory after appending every slot of `order`, before the ring is closed. */
  function Threaded(mem: seq<Link>, order: seq<nat>): (r: seq<Link>)
    requires InMemory(order, |mem|)
    ensures |r| == |mem|
  {
    var n := |order|;
    if n <= 1 then mem
    else SetNext(Threaded(mem, order[..n - 1]), order[n - 2], order[n - 1])
  }

  function Closed(mem: seq<Link>, order: seq<nat>): (r: seq<Link>)
    requires order != [] && InMemory(order, |mem|)
    ensures |r| == |mem|
  {
    SetNext(Threaded(mem, order), order[|order| - 1], order[0])
  }

  /** State of a build in progress: `done` has been appended; -1 stands for a null pointer. */
  ghost predicate Building(mem: seq<Link>, mem0: seq<Link>, done: seq<nat>, root: int, prev: int) {
    && InMemory(done, |mem0|) && mem == Threaded(mem0, done)
    && (done == [] <==> root == -1)
    && (done != [] ==> root == done[0] && prev == done[|done| - 1])
  }

  /** The loop body shared by the three init functions. */
  method AppendLink(mem: array<Link>, root: int, prev: int, link: nat, ghost mem0: seq<Link>, ghost done: seq<nat>)
    returns (root': int, prev': int)
    requires link < mem.Length == |mem0| && Building(mem[..], mem0, done, root, prev)
    modifies mem
    ensures Building(mem[..], mem0, done + [link], root', prev')
  {
    assert (done + [link])[..|done|] == done;
    root' := root;
    if root == -1 {
      root' := link;
      prev' := link;
    } else {
      mem[prev] := mem[prev].(next := link);
      prev' := mem[prev].next;
    }
  }

  /** Last position of a slot in the build order: the write that survives. */
  function LastPos(order: seq<nat>, x: nat): (k: nat)
    requires x in order
    ensures k < |order| && order[k] == x
    ensures forall j :: k < j < |order| ==> order[j] != x
  {
    var n := |order| - 1;
    if order[n] == x then n
    else
      assert order == order[..n] + [order[n]];
      LastPos(order[..n], x)
  }

  /** The slot that follows x in the finished ring. */
  function Successor(order: seq<nat>, x: nat): (y: nat)
    requires x in order
    ensures y in order
  {
    var k := LastPos(order, x);
    if k + 1 < |order| then order[k + 1] else order[0]
  }

  lemma {:induction false} ThreadedAt(mem: seq<Link>, order: seq<nat>, x: nat)
    requires InMemory(order, |mem|) && x < |mem|
    ensures Threaded(mem, order)[x].data == mem[x].data
    ensures x !in order ==> Threaded(mem, order)[x] == mem[x]
    ensures x in order && LastPos(order, x) + 1 < |order|
            ==> Threaded(mem, order)[x].next == order[LastPos(order, x) + 1]
    decreases |order|
  {
    var n := |order|;
    if n >= 2 {
      var shorter := order[..n - 1];
      assert order == shorter + [order[n - 1]];
      ThreadedAt(mem, shorter, x);
      if x in order && LastPos(order, x) + 1 < n {
        var k := LastPos(order, x);
        assert shorter[k] == x;
        assert LastPos(shorter, x) == k;
      }
    }
  }

  /** What the finished memory holds: every visited slot points at its successor, nothing else moved. */
  lemma ClosedAt(mem: seq<Link>, order: seq<nat>, x: nat)
    requires order != [] && InMemory(order, |mem|) && x < |mem|
    ensures Closed(mem, order)[x].data == mem[x].data
    ensures x !in order ==> Closed(mem, order)[x] == mem[x]
    ensures x in order ==> Closed(mem, order)[x].next == Successor(order, x)
  {
    ThreadedAt(mem, order, x);
  }

  /** The slot reached after k hops. */
  function Walk(order: seq<nat>, x: nat, k: nat): (y: nat)
    requires x in order
    ensures y in order
  {
    if k == 0 then x else Successor(order, Walk(order, x, k - 1))
  }

  /** Following `next` in the real memory is walking the build order. */
  function Follow(mem: seq<Link>, x: int, k: nat): (y: int) {
    if k == 0 then x
    else
      var p := Follow(mem, x, k - 1);
      if 0 <= p < |mem| then mem[p].next else -1
  }

  lemma {:induction false} FollowIsWalk(mem: seq<Link>, order: seq<nat>, x: nat, k: nat)
    requires order != [] && InMemory(order, |mem|) && x in order
    ensures Follow(Closed(mem, order), x, k) == Walk(order, x, k)
  {
    if k > 0 {
      FollowIsWalk(mem, order, x, k - 1);
      ClosedAt(mem, order, Walk(order, x, k - 1));
    }
  }

  /** Hops from x until the root is reached. It is well defined because the last position of the
      current slot strictly increases with every hop that does not reach the end of the order. */
  function HopsToRoot(order: seq<nat>, x: nat): (k: nat)
    requires x in order
    ensures k >= 1
    decreases |order| - LastPos(order, x)
  {
    if LastPos(order, x) + 1 == |order| then 1
    else 1 + HopsToRoot(order, Successor(order, x))
  }

  /** Slots whose last write is not before that of x. */
  ghost function Later(order: seq<nat>, x: nat): (s: set<nat>)
    requires x in order
    ensures s <= Elements(order)
  {
    set y | y in Elements(order) && LastPos(order, y) >= LastPos(order, x)
  }

  lemma {:induction false} HopsBounded(order: seq<nat>, x: nat)
    requires x in order
    ensures HopsToRoot(order, x) <= |Later(order, x)|
    decreases |order| - LastPos(order, x)
  {
    var k := LastPos(order, x);
    if k + 1 == |order| {
      assert x in Later(order, x);
    } else {
      var y := Successor(order, x);
      HopsBounded(order, y);
      var rest := Later(order, y) + {x};
      assert rest <= Later(order, x);
      SubsetSize(rest, Later(order, x));
    }
  }

  lemma {:induction false} WalkFront(order: seq<nat>, x: nat, k: nat)
    requires x in order
    ensures Walk(order, x, k + 1) == Walk(order, Successor(order, x), k)
  {
    if k == 0 {
      assert Walk(order, x, 0) == x;
    } else {
      WalkFront(order, x, k - 1);
    }
  }

  lemma {:induction false} HopsArrive(order: seq<nat>, x: nat)
    requires x in order
    ensures Walk(order, x, HopsToRoot(order, x)) == order[0]
    decreases |order| - LastPos(order, x)
  {
    WalkFront(order, x, HopsToRoot(order, x) - 1);
    if LastPos(order, x) + 1 < |order| {
      HopsArrive(order, Successor(order, x));
    }
  }

  lemma HopsStep(order: seq<nat>, x: nat)
    requires x in order && HopsToRoot(order, x) > 1
    ensures LastPos(order, Successor(order, x)) > LastPos(order, x)
    ensures HopsToRoot(order, x) == 1 + HopsToRoot(order, Successor(order, x))
  {
  }

  /** The termination measure: before the root is reached again, last positions climb. */
  lemma {:induction false} HopsClimb(order: seq<nat>, x: nat, j: nat)
    requires x in order && j < HopsToRoot(order, x)
    ensures LastPos(order, Walk(order, x, j)) >= LastPos(order, x) + j
    ensures HopsToRoot(order, Walk(order, x, j)) == HopsToRoot(order, x) - j
  {
    if j > 0 {
      HopsClimb(order, x, j - 1);
      HopsStep(order, Walk(order, x, j - 1));
    }
  }

  /** Length of the ring: hops from the root back to the root. */
  function RingLength(order: seq<nat>): (k: nat)
    requires order != []
    ensures k >= 1
  {
    HopsToRoot(order, order[0])
  }

  ghost predicate FirstReturn(mem: seq<Link>, root: int, k: nat) {
    && 1 <= k && Follow(mem, root, k) == root
    && forall j :: 1 <= j < k ==> Follow(mem, root, j) != root
  }

  /** Whatever the order, repeated slots included, following `next` from the root first returns to the
      root after RingLength hops, and there are at most as many hops as distinct slots. */
  lemma ReturnsToRoot(mem: seq<Link>, order: seq<nat>)
    requires order != [] && InMemory(order, |mem|)
    ensures FirstReturn(Closed(mem, order), order[0], RingLength(order))
    ensures RingLength(order) <= |Elements(order)| <= |order|
  {
    var root, n := order[0], RingLength(order);
    FollowIsWalk(mem, order, root, n);
    HopsArrive(order, root);
    forall j | 1 <= j < n ensures Follow(Closed(mem, order), root, j) != root {
      FollowIsWalk(mem, order, root, j);
      HopsClimb(order, root, j);
    }
    HopsBounded(order, root);
    SubsetSize(Later(order, root), Elements(order));
    ElementsSize(order);
  }

  lemma {:induction false} HopsWithoutRepeat(order: seq<nat>, k: nat)
    requires NoRepeat(order) && k < |order|
    ensures LastPos(order, order[k]) == k && HopsToRoot(order, order[k]) == |order| - k
    decreases |order| - k
  {
    assert LastPos(order, order[k]) == k;
    if k + 1 < |order| { HopsWithoutRepeat(order, k + 1); }
  }

  /** The ring has as many hops as appended links exactly when no slot was appended twice. */
  lemma FullRingIff(order: seq<nat>)
    requires order != []
    ensures RingLength(order) == |order| <==> NoRepeat(order)
  {
    if NoRepeat(order) {
      HopsWithoutRepeat(order, 0);
    } else {
      HopsBounded(order, order[0]);
      SubsetSize(Later(order, order[0]), Elements(order));
      ElementsSize(order);
    }
  }

  /** Without repeats the k-th hop from position a visits position a + k of the order, cyclically. */
  lemma {:induction false} WalkVisits(order: seq<nat>, a: nat, k: nat)
    requires NoRepeat(order) && a < |order| && a + k <= |order|
    ensures Walk(order, order[a], k) == if a + k < |order| then order[a + k] else order[0]
  {
    if k > 0 {
      WalkVisits(order, a, k - 1);
      HopsWithoutRepeat(order, a + k - 1);
    }
  }

  function Reversed(s: seq<nat>): (r: seq<nat>)
    ensures |r| == |s| && forall k :: 0 <= k < |s| ==> r[k] == s[|s| - 1 - k]
  {
    seq(|s|, k requires 0 <= k < |s| => s[|s| - 1 - k])
  }

  lemma ReversedElements(s: seq<nat>)
    ensures forall x :: x in s <==> x in Reversed(s)
    ensures Elements(Reversed(s)) == Elements(s)
    ensures NoRepeat(s) ==> NoRepeat(Reversed(s))
  {
    forall x | x in s ensures x in Reversed(s) {
      var k :| 0 <= k < |s| && s[k] == x;
      assert Reversed(s)[|s| - 1 - k] == x;
    }
  }

  lemma SuccessorAt(order: seq<nat>, k: nat)
    requires NoRepeat(order) && k < |order|
    ensures Successor(order, order[k]) == if k + 1 < |order| then order[k + 1] else order[0]
  {
    HopsWithoutRepeat(order, k);
  }

  /** The ring of the reversed order undoes the ring of the order, wrap-around included. */
  lemma ReversedUndoes(order: seq<nat>, x: nat)
    requires NoRepeat(order) && x in order
    ensures forall y :: y in order <==> y in Reversed(order)
    ensures Successor(Reversed(order), Successor(order, x)) == x
    ensures Successor(order, Successor(Reversed(order), x)) == x
  {
    var n, rev := |order|, Reversed(order);
    ReversedElements(order);
    var k :| 0 <= k < n && order[k] == x;
    var up, down := if k + 1 < n then k + 1 else 0, if k > 0 then k - 1 else n - 1;
    SuccessorAt(order, k);
    SuccessorAt(order, down);
    assert rev[n - 1 - k] == x && rev[n - 1 - up] == order[up];
    SuccessorAt(rev, n - 1 - k);
    SuccessorAt(rev, n - 1 - up);
  }
}
