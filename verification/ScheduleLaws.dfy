/** What the scheduled iteration count and the calibration bound come to, without their formulas. */
module ScheduleLaws {
  import opened Protocol
  import opened ProtocolOpening
  import opened ProtocolTheorems
  import opened Windows
  import opened Options

  lemma Undivide(y: real, d: real)
    requires d > 0.0
    ensures (y / d) * d == y
  {
  }

  lemma TimesPositive(a: real, b: real, d: real)
    requires d > 0.0
    ensures a < b ==> a * d < b * d
    ensures a <= b ==> a * d <= b * d
  {
  }

  /** n is the integer part of 0.9999 + y/d, but at least 1. */
  lemma FloorBounds(y: real, d: real, n: int)
    requires d > 0.0 && n == MaxReal(1.0, 0.9999 + y / d).Floor
    ensures n >= 1 && n as real * d > y - 0.0001 * d
    ensures n == 1 || (n - 1) as real * d <= y - 0.0001 * d
  {
    var q := y / d;
    Undivide(y, d);
    TimesPositive(q - 0.0001, n as real, d);
    TimesPositive((n - 1) as real, q - 0.0001, d);
    assert (q - 0.0001) * d == q * d - 0.0001 * d;
  }

  /** n calls of d each take more than `least` and, but for the last call, at most `most`; a ten-thousandth of
      a call is rounded away. */
  predicate Takes(n: int, d: real, least: real, most: real) {
    n as real * d > least - 0.0001 * d && (n == 1 || (n - 1) as real * d <= most - 0.0001 * d)
  }

  /** With seconds given, the scheduled calls at the pace of `iters` calls in `elapsed` take half of seconds
      times iters. */
  lemma ScheduledBySeconds(seconds: real, iters: int, elapsed: real, half: real)
    requires seconds > 0.0 && elapsed > 0.0 && half == 0.5 * seconds * iters as real
    ensures Takes(Scheduled(seconds, iters, elapsed), elapsed, half, half)
  {
    FloorBounds(half, elapsed, Scheduled(seconds, iters, elapsed));
  }

  /** Without seconds they take one second times iters. */
  lemma ScheduledOneSecond(seconds: real, iters: int, elapsed: real)
    requires seconds <= 0.0 && elapsed > 0.0
    ensures Takes(Scheduled(seconds, iters, elapsed), elapsed, iters as real, iters as real)
  {
    FloorBounds(iters as real, elapsed, Scheduled(seconds, iters, elapsed));
  }

  lemma Halved(seconds: real, iters: int, tested: int, times: int) returns (half: real)
    requires seconds > 0.0 && 2 * tested <= iters <= 2 * times
    ensures half == 0.5 * seconds * iters as real && seconds * tested as real <= half <= seconds * times as real
  {
    half := 0.5 * seconds * iters as real;
    assert half == (0.5 * iters as real) * seconds;
    TimesPositive(tested as real, 0.5 * iters as real, seconds);
    TimesPositive(0.5 * iters as real, times as real, seconds);
  }

  lemma TakesWithin(n: int, d: real, half: real, least: real, most: real)
    requires Takes(n, d, half, half) && least <= half <= most
    ensures Takes(n, d, least, most)
  {
  }

  lemma TimeBounds(seconds: real, iters: int, elapsed: real, tested: int, times: int, least: real, most: real)
    requires seconds > 0.0 && elapsed > 0.0 && 2 * tested <= iters <= 2 * times
    requires least == seconds * tested as real && most == seconds * times as real
    ensures Takes(Scheduled(seconds, iters, elapsed), elapsed, least, most)
  {
    var half := Halved(seconds, iters, tested, times);
    ScheduledBySeconds(seconds, iters, elapsed, half);
    TakesWithin(Scheduled(seconds, iters, elapsed), elapsed, half, least, most);
  }

  lemma PowHalf(n: nat, tested: int)
    requires n > 0
    ensures Pow2(n) * tested == 2 * (Pow2(n - 1) * tested)
  {
    DoubleProduct(Pow2(n - 1), tested);
  }

  lemma DoubleProduct(most: int, tested: int)
    ensures (2 * most) * tested == 2 * (most * tested)
  {
  }

  /** What the calibration of a run says when thread 0 schedules. */
  lemma Measured(c: Config, s: State, t: nat) returns (tested: int, times: int)
    requires Reachable(c, s) && Agrees(c) && OneGiven(c.seconds, c.iterations)
    requires t < |s.threads| == c.threads && s.threads[0].pc.Schedule?
    ensures c.seconds > 0.0 && s.sh.elapsed > 0.0
    ensures s.threads[0].round > 0 && tested == Calls(s.sh.log, CalW(s.threads[0].round - 1), t)
    ensures times == Pow2(c.threads - 1) * tested && 2 * tested <= s.sh.iters <= 2 * times
  {
    ScheduledFrom(c, s, t);
    ScheduleElapsed(c, s);
    tested := Calls(s.sh.log, CalW(s.threads[0].round - 1), t);
    PowHalf(c.threads, tested);
    times := Pow2(c.threads - 1) * tested;
  }

  /** What thread 0 schedules takes, at the pace of the last round (`tested` calls in the elapsed time), from
      the wanted seconds up to 2^(T-1) times as long. */
  lemma ScheduledTime(c: Config, s: State, t: nat) returns (n: int, tested: int, least: real, most: real)
    requires Reachable(c, s) && Agrees(c) && OneGiven(c.seconds, c.iterations)
    requires t < |s.threads| == c.threads && s.threads[0].pc.Schedule?
    ensures n == Scheduled(c.seconds, s.sh.iters, s.sh.elapsed)
    ensures s.threads[0].round > 0 && tested == Calls(s.sh.log, CalW(s.threads[0].round - 1), t)
    ensures least == WantedTime(c.seconds, tested) && most == WantedTime(c.seconds, Pow2(c.threads - 1) * tested)
    ensures Takes(n, s.sh.elapsed, least, most)
  {
    var times;
    tested, times := Measured(c, s, t);
    n, least, most := TimeFrom(c.seconds, s.sh.iters, s.sh.elapsed, tested, times);
  }

  function WantedTime(seconds: real, times: int): real { seconds * times as real }

  lemma TimeFrom(seconds: real, iters: int, elapsed: real, tested: int, times: int)
    returns (n: int, least: real, most: real)
    requires seconds > 0.0 && elapsed > 0.0 && 2 * tested <= iters <= 2 * times
    ensures n == Scheduled(seconds, iters, elapsed) && Takes(n, elapsed, least, most)
    ensures least == WantedTime(seconds, tested) && most == WantedTime(seconds, times)
  {
    n, least, most := Scheduled(seconds, iters, elapsed), WantedTime(seconds, tested), WantedTime(seconds, times);
    TimeBounds(seconds, iters, elapsed, tested, times, least, most);
  }

  /** The calibration bound is the least time that is at least 0.2 s and at least ten clock resolutions. */
  lemma BoundIsLeast(c: Config, t: nat, time: real)
    requires ValidConfig(c) && t < c.threads
    ensures Bound(c, t) <= time <==> time >= 0.2 && time >= 10.0 * c.resolution[t]
  {
  }
}
