/** The racy doubling can do all that its bounds allow: whoever reads after another's write doubles again. */
module ProtocolRace {
  import opened Protocol
  import opened ProtocolOpening
  import opened ProtocolTheorems
  import opened ProtocolAgreement
  import opened BarrierCounts
  import opened Windows

  /** Thread v leaves the round, reads `iters` and writes its double, with nobody between. */
  lemma DoubleBy(c: Config, s: State, v: nat) returns (s': State)
    requires Reachable(c, s) && ValidConfig(c) && |s.threads| == c.threads && v < c.threads
    requires s.threads[v].pc.Wait? && s.threads[v].pc.b == CalStopped && s.threads[v].pc.ticket != s.bar.generation
    ensures Reachable(c, s') && s'.bar == s.bar && s'.sh == s.sh.(iters := 2 * s.sh.iters)
    ensures |s'.threads| == c.threads && s'.threads[v].pc == CalTest && s'.threads[v].round == s.threads[v].round + 1
    ensures forall w: nat :: w < c.threads && w != v ==> s'.threads[w] == s.threads[w]
  {
    var now, quota := s.sh.clock, Scheduled(c.seconds, s.sh.iters, s.sh.elapsed);
    var s1 := Extend(c, s, v, now);
    StepIs(c, s, v, now, quota);
    assert s1.threads[v].pc == ReadIters && s1.sh == s.sh;
    var s2 := Extend(c, s1, v, now);
    StepIs(c, s1, v, now, quota);
    assert s2.threads[v].pc == WriteIters && s2.threads[v].tmp == s.sh.iters && s2.sh == s.sh;
    s' := Extend(c, s2, v, now);
    StepIs(c, s2, v, now, quota);
  }

  /** Threads 1 to n - 1 double one after the other. */
  lemma {:induction false} DoubleInTurn(c: Config, s: State, n: nat) returns (s': State)
    requires Reachable(c, s) && ValidConfig(c) && |s.threads| == c.threads && 1 <= n <= c.threads
    requires RoundOver(s) && s.sh.iters == 1
    ensures Reachable(c, s') && s'.bar == s.bar && s'.sh == s.sh.(iters := Pow2(n - 1)) && |s'.threads| == c.threads
    ensures forall w: nat :: w < c.threads && (w == 0 || w >= n) ==> s'.threads[w] == s.threads[w]
    decreases n
  {
    if n == 1 {
      s' := s;
    } else {
      var s1 := DoubleInTurn(c, s, n - 1);
      s' := DoubleBy(c, s1, n - 1);
    }
  }

  /** The state after round 0: one call per thread, and `iters` still 1. */
  lemma AfterRoundZero(c: Config, time: real) returns (s: State)
    requires ValidConfig(c) && c.iterations == 0 && time >= 0.0
    ensures Reachable(c, s) && |s.threads| == c.threads && RoundOver(s) && s.sh.elapsed == time && s.sh.iters == 1
    ensures s.threads[0].round == 0 && forall t: nat :: t < c.threads ==> Calls(s.sh.log, CalW(0), t) == 1
  {
    var g, h;
    s, g, h := AnyElapsed(c, time);
    RoundZeroFacts(c, s, g, h);
  }

  lemma RoundZeroFacts(c: Config, s: State, g: Stage, h: seq<Bar>)
    requires Inv(c, s, g, h) && g.Cal? && g.r == 1 && g.k == 0 && RoundOver(s)
    ensures s.sh.iters == 1 && s.threads[0].round == 0
    ensures forall t: nat :: t < c.threads ==> Calls(s.sh.log, CalW(0), t) == 1
  {
    assert Written(s) == {};
    forall t: nat | t < c.threads ensures s.threads[t].round == 0 && Calls(s.sh.log, CalW(0), t) == 1 {
      assert ThreadOk(c, g, h, s.bar.generation, s.threads[t], t, ViewOf(s, g, t));
      CountIsCalls(s.sh.log, t);
    }
  }

  /** Every power of two between 2 and 2^T times the last count is what some run schedules from. */
  lemma SpreadIsTight(c: Config, n: nat) returns (s: State)
    requires Agrees(c) && c.iterations == 0 && 1 <= n <= c.threads
    ensures Reachable(c, s) && |s.threads| == c.threads && s.threads[0].pc == Schedule && s.threads[0].round == 1
    ensures s.sh.iters == Pow2(n) && forall t: nat :: t < c.threads ==> Calls(s.sh.log, CalW(0), t) == 1
  {
    s := AfterRoundZero(c, Bound(c, 0) + 1.0);
    s := DoubleInTurn(c, s, n);
    s := DoubleBy(c, s, 0);
    var s1 := s;
    s := Extend(c, s1, 0, s1.sh.clock);
    StepIs(c, s1, 0, s1.sh.clock, Scheduled(c.seconds, s1.sh.iters, s1.sh.elapsed));
  }

  /** What thread 0 schedules from is twice the last count. */
  predicate FromDouble(s: State)
    requires s.threads != [] && s.threads[0].round > 0
  {
    s.sh.iters == 2 * Calls(s.sh.log, CalW(s.threads[0].round - 1), 0)
  }

  /** Thread 0 always schedules from exactly twice the last count if and only if it is alone. */
  lemma DoublesExactlyIff(c: Config)
    requires Agrees(c) && c.iterations == 0
    ensures (forall s :: Reachable(c, s) && |s.threads| == c.threads && s.threads[0].pc.Schedule? ==>
              s.threads[0].round > 0 && FromDouble(s)) <==> c.threads == 1
  {
    if c.threads == 1 {
      forall s | Reachable(c, s) && |s.threads| == c.threads && s.threads[0].pc.Schedule?
        ensures s.threads[0].round > 0 && FromDouble(s)
      {
        ScheduledFrom(c, s, 0);
      }
    } else {
      var s := SpreadIsTight(c, 2);
      assert Pow2(2) == 4;
      assert !FromDouble(s);
    }
  }
}
