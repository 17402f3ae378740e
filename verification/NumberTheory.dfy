/** Arithmetic behind the random build order: when is `(factor * i + offset) % n` a permutation? */
module NumberTheory {

  ghost predicate Prime(p: int) {
    2 <= p && forall d :: 2 <= d < p ==> p % d != 0
  }

  /** The affine index map that orders pages within a chain and lines within a page. */
  function Affine(factor: nat, offset: nat, n: nat, i: nat): (r: nat)
    requires n > 0
    ensures r < n
  {
    (factor * i + offset) % n
  }

  predicate NoRepeat(s: seq<nat>) {
    forall i, j :: 0 <= i < j < |s| ==> s[i] != s[j]
  }

  /** The first k values of the affine map. */
  function AffinePrefix(factor: nat, offset: nat, n: nat, k: nat): (r: seq<nat>)
    requires n > 0
    ensures |r| == k && forall i :: 0 <= i < k ==> r[i] < n
  {
    if k == 0 then [] else AffinePrefix(factor, offset, n, k - 1) + [Affine(factor, offset, n, k - 1)]
  }

  function AffineSeq(factor: nat, offset: nat, n: nat): (r: seq<nat>)
    requires n > 0
    ensures |r| == n && forall i :: 0 <= i < n ==> r[i] < n
  {
    AffinePrefix(factor, offset, n, n)
  }

  lemma {:induction false} AffineAt(factor: nat, offset: nat, n: nat, k: nat, i: nat)
    requires n > 0 && i < k
    ensures AffinePrefix(factor, offset, n, k)[i] == Affine(factor, offset, n, i)
  {
    if i < k - 1 { AffineAt(factor, offset, n, k - 1, i); }
  }

  lemma SmallMultiple(k: int, d: int)
    requires d > 0 && -d < k * d < d
    ensures k == 0
  {
  }

  lemma MulMono(a: int, b: int, c: int)
    requires a <= b && 0 <= c
    ensures a * c <= b * c
  {
  }

  /** Quotient and remainder of a mixed-radix number. */
  lemma DivModUnique(q: int, d: int, r: int)
    requires d > 0 && 0 <= r < d
    ensures (q * d + r) / d == q && (q * d + r) % d == r
  {
    var x := q * d + r;
    assert (x / d - q) * d == r - x % d;
    SmallMultiple(x / d - q, d);
  }

  lemma MulMod(a: int, b: int)
    requires a > 0
    ensures (a * b) % a == 0 && (a * b) / a == b
  {
    DivModUnique(b, a, 0);
  }

  /** Euclid's lemma, by descent on the remainder. */
  lemma {:induction false} Euclid(p: int, r: int, b: int, k: int)
    requires Prime(p) && 1 <= r < p && r * b == p * k
    ensures b % p == 0
    decreases r
  {
    if r == 1 {
      MulMod(p, k);
    } else {
      var q, s := p / r, p % r;
      assert p == q * r + s;
      calc {
        s * b;
        (p - q * r) * b;
        p * b - q * (r * b);
        p * b - q * (p * k);
        p * (b - q * k);
      }
      Euclid(p, s, b, b - q * k);
    }
  }

  /** A prime that does not divide n has no effect on divisibility by n. */
  lemma CancelPrime(f: int, n: int, d: int, m: int)
    requires Prime(f) && n > 0 && n % f != 0 && f * d == n * m
    ensures d % n == 0
  {
    var q, r := n / f, n % f;
    assert n == q * f + r;
    calc {
      r * m;
      (n - q * f) * m;
      n * m - q * f * m;
      f * d - f * (q * m);
      f * (d - q * m);
    }
    Euclid(f, r, m, d - q * m);
    var c := m / f;
    assert m == c * f;
    calc {
      f * d;
      n * (c * f);
      f * (n * c);
    }
    assert d == n * c;
    MulMod(n, c);
  }

  lemma CongruentDifference(a: int, b: int, n: int)
    requires n > 0 && a % n == b % n
    ensures b - a == n * (b / n - a / n)
  {
    assert a == n * (a / n) + a % n;
    assert b == n * (b / n) + b % n;
  }

  lemma AddMultiple(n: int, c: int, o: int)
    requires n > 0
    ensures (n * c + o) % n == o % n
  {
    var q, r := o / n, o % n;
    assert o == q * n + r;
    assert n * c + o == (c + q) * n + r;
    DivModUnique(c + q, n, r);
  }

  lemma AffineCongruent(f: nat, o: nat, n: nat, i: nat, j: nat)
    requires Prime(f) && n > 0 && n % f != 0 && Affine(f, o, n, i) == Affine(f, o, n, j)
    ensures (j - i) % n == 0
  {
    var a, b := f * i + o, f * j + o;
    CongruentDifference(a, b, n);
    assert f * (j - i) == b - a;
    CancelPrime(f, n, j - i, b / n - a / n);
  }

  lemma SmallRemainder(d: int, n: int)
    requires 0 < d < n
    ensures d % n != 0
  {
  }

  lemma AffineDistinct(f: nat, o: nat, n: nat, i: nat, j: nat)
    requires Prime(f) && n > 0 && n % f != 0 && i < j < n
    ensures Affine(f, o, n, i) != Affine(f, o, n, j)
  {
    SmallRemainder(j - i, n);
    if Affine(f, o, n, i) == Affine(f, o, n, j) {
      AffineCongruent(f, o, n, i, j);
      assert false;
    }
  }

  lemma ProperQuotient(f: nat, n: nat)
    requires 2 <= f && n > 0 && n % f == 0
    ensures n == f * (n / f) && 0 < n / f < n
  {
    var c := n / f;
    assert n == f * c;
    if c <= 0 { MulMono(c, 0, f); }
    MulMono(2, f, c);
  }

  lemma AffineCollides(f: nat, o: nat, n: nat)
    requires 2 <= f && n > 0 && n % f == 0
    ensures 0 < n / f < n && Affine(f, o, n, 0) == Affine(f, o, n, n / f)
  {
    ProperQuotient(f, n);
    AddMultiple(n, 1, o);
    assert f * (n / f) + o == n * 1 + o;
    assert f * 0 + o == o;
  }

  /** The map i -> (f*i + o) % n visits every residue once exactly when the prime f does not divide n. */
  lemma AffinePermutationIff(f: nat, o: nat, n: nat)
    requires Prime(f) && n > 0
    ensures NoRepeat(AffineSeq(f, o, n)) <==> n % f != 0
  {
    var s := AffineSeq(f, o, n);
    if n % f != 0 {
      forall i, j | 0 <= i < j < |s| ensures s[i] != s[j] {
        AffineAt(f, o, n, n, i);
        AffineAt(f, o, n, n, j);
        AffineDistinct(f, o, n, i, j);
      }
    } else {
      AffineCollides(f, o, n);
      AffineAt(f, o, n, n, 0);
      AffineAt(f, o, n, n, n / f);
      assert s[0] == s[n / f];
    }
  }

  function Elements(s: seq<nat>): (r: set<nat>)
    ensures forall x :: x in r <==> x in s
  {
    set x | x in s
  }

  function Below(n: nat): (r: set<nat>)
    ensures forall x: nat :: x in r <==> x < n
  {
    if n == 0 then {} else Below(n - 1) + {n - 1}
  }

  lemma {:induction false} BelowSize(n: nat)
    ensures |Below(n)| == n
  {
    if n > 0 {
      BelowSize(n - 1);
    }
  }

  lemma SubsetSize(a: set<nat>, b: set<nat>)
    requires a <= b
    ensures |a| <= |b|
    ensures |a| == |b| ==> a == b
  {
    assert b == a + (b - a);
    assert |b| == |a| + |b - a|;
  }

  /** n - 1 numbers below n, none of them t, are all the others. */
  lemma AllButOne(a: set<nat>, t: nat, n: nat, u: nat)
    requires a <= Below(n) && t !in a && t < n && |a| + 1 == n && u < n && u != t
    ensures u in a
  {
    BelowSize(n);
    SubsetSize(a + {t}, Below(n));
    assert u in Below(n);
  }

  lemma {:induction false} ElementsSize(s: seq<nat>)
    ensures |Elements(s)| <= |s|
    ensures |Elements(s)| == |s| <==> NoRepeat(s)
  {
    if s != [] {
      var n := |s| - 1;
      var t := s[..n];
      ElementsSize(t);
      assert s == t + [s[n]];
      if s[n] in t {
        assert Elements(s) == Elements(t);
        var k :| 0 <= k < n && t[k] == s[n];
        assert s[k] == s[n];
      } else {
        assert Elements(s) == Elements(t) + {s[n]};
        if NoRepeat(t) {
          forall i, j | 0 <= i < j < |s| ensures s[i] != s[j] {
            if j == n { assert t[i] == s[i]; } else { assert t[i] == s[i] && t[j] == s[j]; }
          }
        } else {
          var i, j :| 0 <= i < j < |t| && t[i] == t[j];
          assert s[i] == s[j];
        }
      }
    }
  }

  /** Pigeonhole: n distinct values below n are all the values below n. */
  lemma Surjective(s: seq<nat>, x: nat)
    requires NoRepeat(s) && x < |s| && forall i :: 0 <= i < |s| ==> s[i] < |s|
    ensures x in s
  {
    ElementsSize(s);
    BelowSize(|s|);
    assert Elements(s) <= Below(|s|);
    SubsetSize(Elements(s), Below(|s|));
    assert x in Below(|s|);
  }

  /** The factors `random_mem_init` draws from. */
  const PRIME_TABLE: seq<nat> :=
    [5, 11, 13, 17, 19, 23, 37, 41, 43, 47, 53, 61, 71, 73, 79, 83, 89, 97, 101, 103,
     109, 113, 131, 137, 139, 149, 151, 157, 163]

  lemma MultipleOf(p: nat, c: nat, t: nat, b: nat)
    requires 2 <= c && 1 <= t && 2 <= b && p == c * t * b
    ensures p % c == 0 && p != c
  {
    MulMod(c, t * b);
    assert p == c * (t * b);
  }

  /** A multiple of a number below 13 is a multiple of a prime below 13. */
  lemma SmallFactor(p: nat, s: nat, b: nat)
    requires p == s * b && 2 <= s < 13 && 2 <= b
    ensures (p % 2 == 0 && p != 2) || (p % 3 == 0 && p != 3) || (p % 5 == 0 && p != 5)
         || (p % 7 == 0 && p != 7) || (p % 11 == 0 && p != 11)
  {
    if s % 2 == 0 {
      MultipleOf(p, 2, s / 2, b);
    } else if s % 3 == 0 {
      MultipleOf(p, 3, s / 3, b);
    } else if s == 5 {
      MultipleOf(p, 5, 1, b);
    } else if s == 7 {
      MultipleOf(p, 7, 1, b);
    } else {
      MultipleOf(p, 11, 1, b);
    }
  }

  lemma Factored(p: nat, d: nat)
    requires 2 <= d < p < 169 && p % d == 0
    ensures (p % 2 == 0 && p != 2) || (p % 3 == 0 && p != 3) || (p % 5 == 0 && p != 5)
         || (p % 7 == 0 && p != 7) || (p % 11 == 0 && p != 11)
  {
    var e := p / d;
    assert p == d * e;
    if d < 13 {
      SmallFactor(p, d, e);
    } else {
      assert e < 13 by { if e >= 13 { SquareBound(d, e); } }
      SmallFactor(p, e, d);
    }
  }

  lemma SquareBound(d: nat, e: nat)
    requires 13 <= d && 13 <= e
    ensures d * e >= 169
  {
  }

  /** Trial division by the primes below 13 is enough for numbers below 169. */
  lemma SmallPrime(p: nat)
    requires 2 <= p < 169
    requires (p % 2 != 0 || p == 2) && (p % 3 != 0 || p == 3) && (p % 5 != 0 || p == 5)
    requires (p % 7 != 0 || p == 7) && (p % 11 != 0 || p == 11)
    ensures Prime(p)
  {
    forall d | 2 <= d < p ensures p % d != 0 {
      if p % d == 0 {
        Factored(p, d);
        assert false;
      }
    }
  }

  /** Every factor in the table is an odd prime below 164. */
  lemma PrimeTableIsPrime(k: nat)
    requires k < |PRIME_TABLE|
    ensures Prime(PRIME_TABLE[k]) && 5 <= PRIME_TABLE[k] <= 163
  {
    SmallPrime(PRIME_TABLE[k]);
  }
}
