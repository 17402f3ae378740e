/** Numbers as text: `parse_number` with its size suffixes, and decimal printing. */
module Decimal {

  predicate IsDigit(c: char) { '0' <= c <= '9' }

  function Digit(c: char): nat
    requires IsDigit(c)
  {
    c as int - '0' as int
  }

  predicate AllDigits(s: string) { forall i :: 0 <= i < |s| ==> IsDigit(s[i]) }

  /** The value of a digit string, most significant digit first. */
  function Value(s: string): nat
    requires AllDigits(s)
  {
    if s == [] then 0 else 10 * Value(s[..|s| - 1]) + Digit(s[|s| - 1])
  }

  /** s begins with exactly n digits. */
  predicate Leads(s: string, n: nat) {
    n <= |s| && AllDigits(s[..n]) && (n < |s| ==> !IsDigit(s[n]))
  }

  function Scale(c: char): nat {
    if c == 'k' || c == 'K' then 0x400
    else if c == 'm' || c == 'M' then 0x10_0000
    else if c == 'g' || c == 'G' then 0x4000_0000
    else if c == 't' || c == 'T' then 0x100_0000_0000
    else 1
  }

  function Leading(s: string): (n: nat)
    ensures Leads(s, n)
  {
    if s == [] || !IsDigit(s[0]) then 0
    else
      var n := 1 + Leading(s[1..]);
      assert forall i :: 1 <= i < n ==> s[..n][i] == s[1..][..n - 1][i - 1];
      n
  }

  lemma LeadsOnce(s: string, n: nat, m: nat)
    requires Leads(s, n) && Leads(s, m)
    ensures n == m
  {
  }

  /** The leading digits, scaled by the suffix that follows them. */
  function NumberOf(s: string): nat {
    var n := Leading(s);
    Value(s[..n]) * (if n < |s| then Scale(s[n]) else 1)
  }

  method ParseNumber(s: string) returns (result: int)
    ensures result == NumberOf(s)
  {
    result := 0;
    var i := 0;
    while i < |s|
      invariant i <= |s| && AllDigits(s[..i]) && result == Value(s[..i])
    {
      if IsDigit(s[i]) {
        assert s[..i + 1][..i] == s[..i];
        result := result * 10 + (s[i] as int - '0' as int);
      } else {
        LeadsOnce(s, i, Leading(s));
        if s[i] == 'k' || s[i] == 'K' {
          result := result * 0x400;
        } else if s[i] == 'm' || s[i] == 'M' {
          result := result * 0x10_0000;
        } else if s[i] == 'g' || s[i] == 'G' {
          result := result * 0x4000_0000;
        } else if s[i] == 't' || s[i] == 'T' {
          result := result * 0x100_0000_0000;
        }
        return;
      }
      i := i + 1;
    }
    LeadsOnce(s, i, Leading(s));
  }

  /** Decimal digits of n, as printed. */
  function Printed(n: nat): (s: string)
    ensures s != [] && AllDigits(s)
  {
    (if n < 10 then [] else Printed(n / 10)) + [('0' as int + n % 10) as char]
  }

  /** Printing and parsing again gives the number back. */
  lemma {:induction false} PrintedParses(n: nat)
    ensures NumberOf(Printed(n)) == n
  {
    PrintedValue(n);
    var s := Printed(n);
    assert s[..|s|] == s;
    LeadsOnce(s, |s|, Leading(s));
  }

  lemma {:induction false} PrintedValue(n: nat)
    ensures Value(Printed(n)) == n
  {
    var s := Printed(n);
    assert s[..|s| - 1] == if n < 10 then [] else Printed(n / 10);
    if n >= 10 { PrintedValue(n / 10); }
  }

  function Pow10(k: nat): nat { if k == 0 then 1 else 10 * Pow10(k - 1) }

  lemma {:induction false} PrintedLength(n: nat, k: nat)
    requires n < Pow10(k)
    ensures |Printed(n)| <= if k == 0 then 1 else k
  {
    if n >= 10 {
      PrintedLength(n / 10, k - 1);
      assert k != 1 by { assert Pow10(1) == 10 * Pow10(0); }
    }
  }

  /** A number with one more character: its unit, or nothing that counts. */
  lemma UnitScales(n: nat, x: char)
    requires !IsDigit(x)
    ensures NumberOf(Printed(n) + [x]) == n * Scale(x)
  {
    var s := Printed(n);
    var t := s + [x];
    PrintedValue(n);
    assert t[..|s|] == s && t[|s|] == x;
    assert Leads(t, |s|);
    LeadsOnce(t, |s|, Leading(t));
  }

  /** The units in numbers: kilo, mega, giga and tera in powers of 1024; other characters end the number. */
  lemma Units(n: nat, x: char)
    requires !IsDigit(x)
    ensures x == 'k' || x == 'K' ==> NumberOf(Printed(n) + [x]) == n * 1024
    ensures x == 'm' || x == 'M' ==> NumberOf(Printed(n) + [x]) == n * (1024 * 1024)
    ensures x == 'g' || x == 'G' ==> NumberOf(Printed(n) + [x]) == n * (1024 * 1024 * 1024)
    ensures x == 't' || x == 'T' ==> NumberOf(Printed(n) + [x]) == n * (1024 * 1024 * 1024 * 1024)
    ensures x !in "kKmMgGtT" ==> NumberOf(Printed(n) + [x]) == n
  {
    UnitScales(n, x);
    assert x == 'k' || x == 'K' || x == 'm' || x == 'M' || x == 'g' || x == 'G' || x == 't' || x == 'T' ==>
      x in "kKmMgGtT";
  }

  /** What follows a unit, or any other character that is no digit, does not count. */
  lemma RestIgnored(s: string, rest: string)
    requires Leading(s) < |s|
    ensures NumberOf(s + rest) == NumberOf(s)
  {
    var n := Leading(s);
    assert (s + rest)[..n] == s[..n] && (s + rest)[n] == s[n];
    assert Leads(s + rest, n);
    LeadsOnce(s + rest, n, Leading(s + rest));
  }
}
