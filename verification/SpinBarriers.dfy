/** The barrier object: arrivals of the current generation. */
module SpinBarriers {
  import opened NumberTheory
  import opened Protocol

  class SpinBarrier {
    const limit: nat
    var arrived: nat
    var generation: nat

    constructor (participants: nat)
      ensures limit == participants && Value() == Barrier(0, 0)
    {
      limit, arrived, generation := participants, 0, 0;
    }

    function Value(): Barrier
      reads this
    {
      Barrier(arrived, generation)
    }

    /** The arrival part of a call: the last participant lets everybody go. */
    method Enter() returns (ticket: nat)
      modifies this
      ensures Value() == Arrive(old(Value()), limit) && ticket == old(generation)
    {
      ticket := generation;
      arrived := arrived + 1;
      if arrived >= limit {
        arrived, generation := 0, generation + 1;
      }
    }
  }

  /** The barrier after n arrivals. */
  function Arrivals(limit: nat, n: nat): Barrier {
    if n == 0 then Barrier(0, 0) else Arrive(Arrivals(limit, n - 1), limit)
  }

  lemma {:induction false} ArrivalsCount(limit: nat, n: nat) returns (q: nat, r: nat)
    requires limit > 0
    ensures Arrivals(limit, n) == Barrier(r, q) && r < limit && n == q * limit + r
  {
    if n == 0 {
      q, r := 0, 0;
    } else {
      q, r := ArrivalsCount(limit, n - 1);
      assert (q + 1) * limit == q * limit + limit;
      if r + 1 < limit { r := r + 1; } else { q, r := q + 1, 0; }
    }
  }

  /** It opens at every limit-th arrival and at no other. Call k, counted from 0, belongs to group q; it is
      let go after n arrivals exactly when its whole group is among them. */
  lemma OpensInGroups(limit: nat, n: nat, k: nat) returns (q: nat)
    requires limit > 0 && k < n
    ensures q * limit <= k < (q + 1) * limit && Arrivals(limit, k).generation == q
    ensures Arrivals(limit, n).generation != q <==> n >= (q + 1) * limit
  {
    var a, r, s;
    a, r := ArrivalsCount(limit, n);
    q, s := ArrivalsCount(limit, k);
    assert (q + 1) * limit == q * limit + limit && (a + 1) * limit == a * limit + limit;
    if a > q { MulMono(q + 1, a, limit); }
    if a < q { MulMono(a + 1, q, limit); }
  }
}
