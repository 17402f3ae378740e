/** The two options that decide between a given iteration count and calibration. */
module Options {
  import opened Wrappers
  import opened Decimal

  /** A command line cut into options. `None` is a value that is missing at the end of the line; `Rejected`
      is any other option that ends parsing with an error or the usage text, and `Other` one that touches
      neither field. */
  datatype Opt = Seconds(text: Option<string>) | Iterations(text: Option<string>) | Other | Rejected

  predicate IsReal(s: string) { forall k :: 0 <= k < |s| ==> IsDigit(s[k]) || s[k] == '.' }

  /** s begins with n digits and points, and no more. */
  predicate RealLeads(s: string, n: nat) {
    n <= |s| && IsReal(s[..n]) && (n < |s| ==> !IsDigit(s[n]) && s[n] != '.')
  }

  function RealLength(s: string): (n: nat)
    ensures RealLeads(s, n)
  {
    if s == [] || !(IsDigit(s[0]) || s[0] == '.') then 0
    else
      var n := 1 + RealLength(s[1..]);
      assert forall i :: 1 <= i < n ==> s[..n][i] == s[1..][..n - 1][i - 1];
      n
  }

  lemma RealLeadsOnce(s: string, n: nat, m: nat)
    requires RealLeads(s, n) && RealLeads(s, m)
    ensures n == m
  {
  }

  /** The digits of s, without its points. */
  function Digits(s: string): (d: string)
    ensures AllDigits(d)
  {
    if s == [] then []
    else
      var n := |s| - 1;
      if IsDigit(s[n]) then Digits(s[..n]) + [s[n]] else Digits(s[..n])
  }

  /** How many digits follow the first point. */
  function Places(s: string): nat {
    if s == [] then 0
    else
      var n := |s| - 1;
      Places(s[..n]) + if IsDigit(s[n]) && '.' in s[..n] then 1 else 0
  }

  /** The number at the start of s: its digits, scaled down by the places after the first point. */
  function RealOf(s: string): real {
    var t := s[..RealLength(s)];
    Down(Value(Digits(t)) as real, Places(t))
  }

  /** x, k decimal places further down. */
  function Down(x: real, k: nat): real { if k == 0 then x else Down(x, k - 1) / 10.0 }

  /** A nonzero digit comes before anything that ends the number. */
  ghost predicate NonZero(s: string) {
    exists k :: 0 <= k < |s| && '1' <= s[k] <= '9' && forall m :: 0 <= m < k ==> IsDigit(s[m]) || s[m] == '.'
  }

  /** `parse_real`, on reals. */
  method ParseReal(s: string) returns (result: real)
    ensures result == RealOf(s)
    ensures result >= 0.0 && (result > 0.0 <==> NonZero(s))
  {
    result := 0.0;
    var decimal, power := false, 1.0;
    for i := 0 to |s|
      invariant IsReal(s[..i]) && (decimal <==> '.' in s[..i]) && Reads(s[..i], result, power)
    {
      ghost var before, unit, x := result, power, Value(Digits(s[..i])) as real;
      if IsDigit(s[i]) {
        if !decimal {
          result := result * 10.0 + Digit(s[i]) as real;
          ReadsDigit(s, i, before, result, power);
        } else {
          power := power / 10.0;
          result := result + Digit(s[i]) as real * power;
          NextPlace(x, Digit(s[i]) as real, Places(s[..i]), before, unit, result, power);
          ReadsPlace(s, i, x, result, power);
        }
      } else if s[i] == '.' {
        ReadsPoint(s, i, result, power);
        decimal := true;
      } else {
        ReadReal(s, i, result, power);
        return;
      }
    }
    ReadReal(s, |s|, result, power);
  }

  /** What the loop has after reading s: the number so far, and the value of the last place. */
  ghost predicate Reads(s: string, result: real, power: real) {
    result == Down(Value(Digits(s)) as real, Places(s)) && power == Down(1.0, Places(s))
  }

  lemma {:induction false} NoPlaces(s: string)
    requires '.' !in s
    ensures Places(s) == 0
  {
    if s != [] { NoPlaces(s[..|s| - 1]); }
  }

  /** A number with one more digit. */
  lemma ValueNext(s: string, c: char)
    requires AllDigits(s) && IsDigit(c)
    ensures Value(s + [c]) as real == 10.0 * Value(s) as real + Digit(c) as real
  {
    assert (s + [c])[..|s|] == s;
  }

  lemma LastChar(s: string, i: nat)
    requires i < |s|
    ensures Digits(s[..i + 1]) == if IsDigit(s[i]) then Digits(s[..i]) + [s[i]] else Digits(s[..i])
    ensures Places(s[..i + 1]) == Places(s[..i]) + if IsDigit(s[i]) && '.' in s[..i] then 1 else 0
  {
    assert s[..i + 1][..i] == s[..i];
  }

  lemma ReadsPoint(s: string, i: nat, result: real, power: real)
    requires i < |s| && s[i] == '.' && Reads(s[..i], result, power)
    ensures Reads(s[..i + 1], result, power)
  {
    LastChar(s, i);
  }

  lemma ReadsDigit(s: string, i: nat, before: real, result: real, power: real)
    requires i < |s| && IsDigit(s[i]) && '.' !in s[..i] && Reads(s[..i], before, power)
    requires result == before * 10.0 + Digit(s[i]) as real
    ensures Reads(s[..i + 1], result, power)
  {
    LastChar(s, i);
    NoPlaces(s[..i]);
    ValueNext(Digits(s[..i]), s[i]);
  }

  lemma ReadsPlace(s: string, i: nat, x: real, result: real, power: real)
    requires i < |s| && IsDigit(s[i]) && '.' in s[..i] && x == Value(Digits(s[..i])) as real
    requires result == Down(10.0 * x + Digit(s[i]) as real, Places(s[..i]) + 1)
    requires power == Down(1.0, Places(s[..i]) + 1)
    ensures Reads(s[..i + 1], result, power)
  {
    LastChar(s, i);
    ValueNext(Digits(s[..i]), s[i]);
  }

  lemma NextPlace(x: real, d: real, k: nat, before: real, unit: real, result: real, power: real)
    requires before == Down(x, k) && unit == Down(1.0, k) && power == unit / 10.0 && result == before + d * power
    ensures result == Down(10.0 * x + d, k + 1) && power == Down(1.0, k + 1)
  {
    DownNext(x, d, k);
    DownTimes(d, k + 1);
  }

  lemma {:induction false} DownNext(x: real, d: real, k: nat)
    ensures Down(10.0 * x + d, k + 1) == Down(x, k) + Down(d, k + 1)
  {
    if k > 0 { DownNext(x, d, k - 1); }
  }

  lemma {:induction false} DownTimes(d: real, k: nat)
    ensures Down(d, k) == d * Down(1.0, k)
  {
    if k > 0 {
      DownTimes(d, k - 1);
      Tenth(d, Down(1.0, k - 1));
    }
  }

  lemma Tenth(d: real, p: real)
    ensures (d * p) / 10.0 == d * (p / 10.0)
  {
  }

  lemma ReadReal(s: string, i: nat, result: real, power: real)
    requires RealLeads(s, i) && Reads(s[..i], result, power)
    ensures result == RealOf(s) && result >= 0.0 && (result > 0.0 <==> NonZero(s))
  {
    RealLeadsOnce(s, i, RealLength(s));
    RealPositive(s);
  }

  // ----- when a number is positive

  lemma {:induction false} DownPositive(x: real, k: nat)
    requires x >= 0.0
    ensures Down(x, k) >= 0.0 && (Down(x, k) > 0.0 <==> x > 0.0)
  {
    if k > 0 { DownPositive(x, k - 1); }
  }

  lemma {:induction false} DigitsPositive(s: string)
    ensures Value(Digits(s)) > 0 <==> exists k :: 0 <= k < |s| && '1' <= s[k] <= '9'
  {
    if s != [] {
      var n := |s| - 1;
      DigitsPositive(s[..n]);
      if IsDigit(s[n]) { ValueNext(Digits(s[..n]), s[n]); }
      if k: nat :| k < |s| && '1' <= s[k] <= '9' {
        assert k < n ==> s[..n][k] == s[k];
        assert k == n ==> Digit(s[n]) > 0;
      }
      if k: nat :| k < n && '1' <= s[..n][k] <= '9' { assert s[k] == s[..n][k]; }
      assert IsDigit(s[n]) && Digit(s[n]) > 0 ==> '1' <= s[n] <= '9';
    }
  }

  lemma RealPositive(s: string)
    ensures RealOf(s) >= 0.0 && (RealOf(s) > 0.0 <==> NonZero(s))
  {
    var n := RealLength(s);
    DownPositive(Value(Digits(s[..n])) as real, Places(s[..n]));
    DigitsPositive(s[..n]);
    if k: nat :| k < n && '1' <= s[k] <= '9' {
      assert forall m :: 0 <= m < k ==> s[m] == s[..n][m];
      assert s[..n][k] == s[k];
    }
    if k: nat :| k < |s| && '1' <= s[k] <= '9' && forall m :: 0 <= m < k ==> IsDigit(s[m]) || s[m] == '.' {
      assert k < n;
      assert s[..n][k] == s[k];
    }
  }

  // ----- what the text means

  lemma {:induction false} DigitsStay(s: string)
    requires AllDigits(s)
    ensures Digits(s) == s && Places(s) == 0
  {
    if s != [] { DigitsStay(s[..|s| - 1]); }
  }

  lemma {:induction false} PointedValue(a: string, b: string)
    requires AllDigits(a) && AllDigits(b)
    ensures Down(Value(a + b) as real, |b|) == Value(a) as real + Down(Value(b) as real, |b|)
    decreases |b|
  {
    if b == [] {
      assert a + b == a;
    } else {
      var n := |b| - 1;
      var c, d := b[..n], b[n];
      assert a + b == (a + c) + [d] && b == c + [d];
      PointedValue(a, c);
      ValueNext(a + c, d);
      ValueNext(c, d);
      DownNext(Value(a + c) as real, Digit(d) as real, n);
      DownNext(Value(c) as real, Digit(d) as real, n);
    }
  }

  lemma {:induction false} PointedDigits(a: string, b: string)
    requires AllDigits(a) && AllDigits(b)
    ensures Digits(a + ['.'] + b) == a + b && Places(a + ['.'] + b) == |b|
    decreases |b|
  {
    var s := a + ['.'] + b;
    if b == [] {
      assert s[..|s| - 1] == a && s[|s| - 1] == '.' && a + b == a;
      DigitsStay(a);
    } else {
      var n := |b| - 1;
      assert s[..|s| - 1] == a + ['.'] + b[..n] && s[|s| - 1] == b[n] && a + b == (a + b[..n]) + [b[n]];
      assert (a + ['.'] + b[..n])[|a|] == '.';
      PointedDigits(a, b[..n]);
    }
  }

  lemma RealIs(t: string, rest: string)
    requires IsReal(t) && (rest != [] ==> !IsDigit(rest[0]) && rest[0] != '.')
    ensures RealOf(t + rest) == Down(Value(Digits(t)) as real, Places(t))
  {
    assert (t + rest)[..|t|] == t;
    RealLeadsOnce(t + rest, |t|, RealLength(t + rest));
  }

  /** A number is the digits before the point, and those after it in units of their places; any other
      character ends it. */
  lemma RealText(a: string, b: string, rest: string)
    requires AllDigits(a) && AllDigits(b) && (rest != [] ==> !IsDigit(rest[0]) && rest[0] != '.')
    ensures RealOf(a + rest) == Value(a) as real
    ensures RealOf(a + ['.'] + b + rest) == Value(a) as real + Down(Value(b) as real, |b|)
  {
    DigitsStay(a);
    RealIs(a, rest);
    PointedText(a, b, a + ['.'] + b, rest);
  }

  lemma PointedText(a: string, b: string, t: string, rest: string)
    requires AllDigits(a) && AllDigits(b) && (rest != [] ==> !IsDigit(rest[0]) && rest[0] != '.')
    requires t == a + ['.'] + b
    ensures RealOf(t + rest) == Value(a) as real + Down(Value(b) as real, |b|)
  {
    PointedDigits(a, b);
    RealIs(t, rest);
    PointedValue(a, b);
  }

  /** Exactly one of the two is positive, and the other is zero. */
  predicate OneGiven(seconds: real, iterations: int) {
    (seconds > 0.0 && iterations == 0) || (seconds == 0.0 && iterations > 0)
  }

  predicate IsTiming(o: Opt) { o.Seconds? || o.Iterations? }

  /** Option k is the last of the first n that decides. */
  predicate Decides(args: seq<Opt>, n: nat, k: int) {
    0 <= k < n <= |args| && IsTiming(args[k]) && forall m :: k < m < n ==> !IsTiming(args[m])
  }

  predicate Undecided(args: seq<Opt>, n: nat) {
    n <= |args| && forall k :: 0 <= k < n ==> !IsTiming(args[k])
  }

  /** The fields hold the value that the option's text gives. */
  predicate Gives(o: Opt, seconds: real, iterations: int) {
    match o
    case Seconds(Some(text)) => seconds == RealOf(text) && iterations == 0
    case Iterations(Some(text)) => iterations == NumberOf(text) && seconds == 0.0
    case _ => false
  }

  /** Seconds and iterations after the first n options. */
  function Setting(args: seq<Opt>, n: nat): (real, int)
    requires n <= |args|
  {
    if n == 0 then (1.0, 0)
    else
      match args[n - 1]
      case Seconds(Some(text)) => (RealOf(text), 0)
      case Iterations(Some(text)) => (0.0, NumberOf(text))
      case _ => Setting(args, n - 1)
  }

  /** The last option that decides, if there is one, gives both values; otherwise they are the defaults. */
  lemma {:induction false} LastDecides(args: seq<Opt>, n: nat) returns (k: int)
    requires n <= |args| && forall m :: 0 <= m < n ==> Accepted(args[m])
    ensures !Undecided(args, n) ==> Decides(args, n, k) && Gives(args[k], Setting(args, n).0, Setting(args, n).1)
    ensures Undecided(args, n) ==> Setting(args, n) == (1.0, 0)
  {
    k := n - 1;
    if n > 0 && !IsTiming(args[n - 1]) {
      k := LastDecides(args, n - 1);
    }
  }

  class Timing {
    var seconds: real
    var iterations: int

    constructor ()
      ensures seconds == 1.0 && iterations == 0
    {
      seconds, iterations := 1.0, 0;
    }

    /** The option loop. An accepted command line leaves exactly one of seconds and iterations positive: the
        value that the last of these options gives, or else the default of one second. */
    method ParseArgs(args: seq<Opt>) returns (accepted: bool)
      requires seconds == 1.0 && iterations == 0
      modifies this
      ensures accepted <==> forall k :: 0 <= k < |args| ==> Accepted(args[k])
      ensures accepted ==> OneGiven(seconds, iterations) && (seconds, iterations) == Setting(args, |args|)
    {
      for i := 0 to |args|
        invariant OneGiven(seconds, iterations) && (forall k :: 0 <= k < i ==> Accepted(args[k]))
        invariant (seconds, iterations) == Setting(args, i)
      {
        match args[i]
        case Seconds(text) =>
          if text.None? { return false; }
          seconds := ParseReal(text.value);
          iterations := 0;
          if seconds == 0.0 { return false; }
        case Iterations(text) =>
          if text.None? { return false; }
          iterations := ParseNumber(text.value);
          seconds := 0.0;
          if iterations == 0 { return false; }
        case Other =>
        case Rejected => return false;
      }
      return true;
    }
  }

  ghost predicate Accepted(o: Opt) {
    match o
    case Seconds(text) => text.Some? && RealOf(text.value) > 0.0
    case Iterations(text) => text.Some? && NumberOf(text.value) > 0
    case Other => true
    case Rejected => false
  }
}
