/** How often the experiments of a finished run chase, told from the clock readings in its log. */
module ScheduledRuns {
  import opened Wrappers
  import opened Protocol
  import opened ProtocolOpening
  import opened ProtocolTheorems
  import opened ProtocolProgress
  import opened ProtocolCalibration
  import opened BarrierCounts
  import opened Windows
  import opened RecordedTimes
  import opened ScheduleLaws
  import opened Options

  /** Thread 0 has scheduled. */
  predicate Past(th: Thread) { Gone(th) && !th.pc.Schedule? }

  predicate LastRound(log: seq<Event>, r: nat) {
    forall i :: 0 <= i < |log| && log[i].w.CalW? ==> log[i].w.r <= r
  }

  predicate Doublings(calls: int, iters: int, n: nat) { 2 * calls <= iters <= Pow2(n) * calls }

  /** The iterations were scheduled from round r, the last one, and a count of `iters`. */
  ghost predicate Chosen(c: Config, sh: Shared, r: nat, iters: int) {
    && sh.iterations == Scheduled(c.seconds, iters, sh.elapsed)
    && sh.elapsed > 0.2 && Took(sh.log, CalW(r), sh.elapsed) && LastRound(sh.log, r)
    && forall t: nat :: t < c.threads ==> Doublings(Calls(sh.log, CalW(r), t), iters, c.threads)
  }

  ghost predicate IterationsOk(c: Config, s: State)
    requires |s.threads| > 0
  {
    if c.iterations > 0 then s.sh.iterations == c.iterations
    else Past(s.threads[0]) ==> exists r, iters :: Chosen(c, s.sh, r, iters)
  }

  // ----- thread 0 schedules

  lemma LastTook(log: seq<Event>, r: nat)
    requires Tally(log).ok && !Tally(log).open && Tally(log).last == Some(CalW(r))
    ensures Took(log, CalW(r), CalElapsed(log)) && LastRound(log, r)
  {
    var n := |log| - 1;
    var before := log[..n];
    var j := OpenSince(before);
    assert TimedAt(log, CalW(r), j, n);
    BookUpTo(log);
  }

  lemma ScheduleBook(c: Config, s: State, g: Stage, h: seq<Bar>)
    requires Timely(c, s, g, h) && s.threads[0].pc.Schedule?
    ensures s.threads[0].round > 0 && Took(s.sh.log, CalW(s.threads[0].round - 1), s.sh.elapsed)
    ensures LastRound(s.sh.log, s.threads[0].round - 1) && s.sh.elapsed > 0.2
  {
    assert ThreadOk(c, g, h, s.bar.generation, s.threads[0], 0, ViewOf(s, g, 0));
    var m, y := ScheduleCounts(c, s, g, h, 0);
    LastTook(s.sh.log, s.threads[0].round - 1);
  }

  lemma ScheduleDoublings(c: Config, s: State, g: Stage, h: seq<Bar>, t: nat)
    requires Inv(c, s, g, h) && s.threads[0].pc.Schedule? && t < c.threads
    ensures s.threads[0].round > 0
    ensures Doublings(Calls(s.sh.log, CalW(s.threads[0].round - 1), t), s.sh.iters, c.threads)
  {
    var m, y := ScheduleCounts(c, s, g, h, t);
    CountIsCalls(s.sh.log, t);
    Spread(Count(s.sh.log, t), s.sh.iters, m, y, c.threads);
  }

  lemma ScheduleChooses(c: Config, s: State, g: Stage, h: seq<Bar>, quota: int)
    requires Timely(c, s, g, h) && s.threads[0].pc.Schedule?
    requires quota == Scheduled(c.seconds, s.sh.iters, s.sh.elapsed)
    ensures s.threads[0].round > 0
    ensures Chosen(c, s.sh.(iterations := quota), s.threads[0].round - 1, s.sh.iters)
  {
    ScheduleBook(c, s, g, h);
    var r: nat := s.threads[0].round - 1;
    forall t: nat | t < c.threads ensures Doublings(Calls(s.sh.log, CalW(r), t), s.sh.iters, c.threads) {
      ScheduleDoublings(c, s, g, h, t);
    }
  }

  // ----- after that

  /** Only an event of an experiment is appended, if any. */
  ghost predicate Quiet(sh: Shared, sh': Shared) {
    && sh'.elapsed == sh.elapsed && sh'.iterations == sh.iterations
    && (sh'.log == sh.log || exists ev :: sh'.log == sh.log + [ev] && ev.w.ExpW?)
  }

  /** Once thread 0 has scheduled, nobody is in a calibration round. */
  lemma PastRounds(c: Config, s: State, g: Stage, h: seq<Bar>)
    requires Inv(c, s, g, h) && Past(s.threads[0])
    ensures g.Cal? ==> g.k == 0
  {
    assert ThreadOk(c, g, h, s.bar.generation, s.threads[0], 0, ViewOf(s, g, 0));
  }

  predicate InRound(th: Thread) { th.pc.CalStart? || th.pc.CalChase? || th.pc.CalStop? }

  lemma OutOfRounds(c: Config, s: State, g: Stage, h: seq<Bar>, t: nat)
    requires Inv(c, s, g, h) && t < c.threads && (g.Cal? ==> g.k == 0)
    ensures !InRound(s.threads[t])
  {
    assert ThreadOk(c, g, h, s.bar.generation, s.threads[t], t, ViewOf(s, g, t));
  }

  lemma QuietAct(sh: Shared, th: Thread, t: nat, now: real, quota: int)
    requires !InRound(th) && !(t == 0 && th.pc.Schedule?)
    ensures Quiet(sh, ActShared(sh, th, t, now, quota))
  {
    var sh' := ActShared(sh, th, t, now, quota);
    if sh'.log != sh.log {
      var ev := sh'.log[|sh.log|];
      assert sh'.log == sh.log + [ev] && ev.w.ExpW?;
    }
  }

  lemma QuietStep(c: Config, s: State, g: Stage, h: seq<Bar>, t: nat, now: real, quota: int)
    requires Inv(c, s, g, h) && t < c.threads && Enabled(s, t) && Past(s.threads[0])
    ensures Quiet(s.sh, Step(c, s, t, now, quota).sh)
  {
    PastRounds(c, s, g, h);
    OutOfRounds(c, s, g, h, t);
    QuietAct(s.sh, s.threads[t], t, now, quota);
  }

  lemma ChosenStays(c: Config, sh: Shared, sh': Shared, r: nat, iters: int)
    requires Chosen(c, sh, r, iters) && Quiet(sh, sh')
    ensures Chosen(c, sh', r, iters)
  {
    if sh'.log != sh.log {
      var ev :| sh'.log == sh.log + [ev] && ev.w.ExpW?;
      TookStays(sh.log, ev, CalW(r), sh.elapsed);
      forall t: nat | t < c.threads ensures Doublings(Calls(sh'.log, CalW(r), t), iters, c.threads) {
        CallsOne(sh.log, ev, CalW(r), t);
      }
    }
  }

  // ----- runs

  lemma ChecksForNone(c: Config, s: State, g: Stage, h: seq<Bar>)
    requires Inv(c, s, g, h) && c.iterations == 0 && s.threads[0].pc.Check?
    ensures s.sh.iterations == 0
  {
    assert ThreadOk(c, g, h, s.bar.generation, s.threads[0], 0, ViewOf(s, g, 0));
  }

  lemma ActsToPast(c: Config, sh: Shared, th: Thread, now: real)
    requires ValidConfig(c) && !th.pc.Schedule? && (th.pc.Check? ==> sh.iterations == 0)
    requires Past(ActThread(c, sh, th, 0, now))
    ensures Past(th)
  {
  }

  lemma LeavesToPast(th: Thread)
    requires th.pc.Wait? && Past(Leave(th))
    ensures Past(th)
  {
  }

  /** Thread 0 gets past scheduling by scheduling only. */
  lemma BecomesPast(c: Config, s: State, g: Stage, h: seq<Bar>, now: real, quota: int)
    requires Inv(c, s, g, h) && c.iterations == 0 && Enabled(s, 0) && !s.threads[0].pc.Schedule?
    requires Past(Step(c, s, 0, now, quota).threads[0])
    ensures Past(s.threads[0])
  {
    var th := s.threads[0];
    if th.pc.Check? { ChecksForNone(c, s, g, h); }
    if th.pc.Wait? {
      LeavesToPast(th);
    } else if !th.pc.At? {
      ActsToPast(c, s.sh, th, now);
    }
  }

  lemma NeverSchedules(c: Config, s: State, g: Stage, h: seq<Bar>)
    requires Inv(c, s, g, h) && c.iterations > 0
    ensures !s.threads[0].pc.Schedule?
  {
    assert ThreadOk(c, g, h, s.bar.generation, s.threads[0], 0, ViewOf(s, g, 0));
  }

  lemma SameIterations(c: Config, s: State, t: nat, now: real, quota: int)
    requires ValidConfig(c) && |s.threads| == c.threads && t < c.threads && Enabled(s, t)
    requires !(t == 0 && s.threads[0].pc.Schedule?)
    ensures Step(c, s, t, now, quota).sh.iterations == s.sh.iterations
  {
  }

  lemma StillChosen(c: Config, s: State, g: Stage, h: seq<Bar>, t: nat, now: real, quota: int)
    requires Inv(c, s, g, h) && t < c.threads && Enabled(s, t) && c.iterations == 0 && IterationsOk(c, s)
    requires !(t == 0 && s.threads[0].pc.Schedule?)
    ensures |Step(c, s, t, now, quota).threads| == c.threads && IterationsOk(c, Step(c, s, t, now, quota))
  {
    var s' := Step(c, s, t, now, quota);
    if Past(s'.threads[0]) {
      if t == 0 { BecomesPast(c, s, g, h, now, quota); }
      var r, iters :| Chosen(c, s.sh, r, iters);
      QuietStep(c, s, g, h, t, now, quota);
      ChosenStays(c, s.sh, s'.sh, r, iters);
    }
  }

  lemma NowChosen(c: Config, s: State, g: Stage, h: seq<Bar>, now: real, quota: int)
    requires Timely(c, s, g, h) && c.iterations == 0 && Enabled(s, 0) && s.threads[0].pc.Schedule?
    requires quota == Scheduled(c.seconds, s.sh.iters, s.sh.elapsed)
    ensures |Step(c, s, 0, now, quota).threads| == c.threads && IterationsOk(c, Step(c, s, 0, now, quota))
  {
    ScheduleChooses(c, s, g, h, quota);
    assert Chosen(c, Step(c, s, 0, now, quota).sh, s.threads[0].round - 1, s.sh.iters);
  }

  lemma StillGiven(c: Config, s: State, g: Stage, h: seq<Bar>, t: nat, now: real, quota: int)
    requires Inv(c, s, g, h) && t < c.threads && Enabled(s, t) && c.iterations > 0 && IterationsOk(c, s)
    ensures |Step(c, s, t, now, quota).threads| == c.threads && IterationsOk(c, Step(c, s, t, now, quota))
  {
    NeverSchedules(c, s, g, h);
    SameIterations(c, s, t, now, quota);
  }

  lemma StepScheduled(c: Config, s: State, g: Stage, h: seq<Bar>, s': State)
    requires Timely(c, s, g, h) && Next(c, s, s') && IterationsOk(c, s)
    ensures |s'.threads| == c.threads && IterationsOk(c, s')
  {
    var t, now := Taken(c, s, s');
    var quota := Scheduled(c.seconds, s.sh.iters, s.sh.elapsed);
    if c.iterations > 0 {
      StillGiven(c, s, g, h, t, now, quota);
    } else if t == 0 && s.threads[0].pc.Schedule? {
      NowChosen(c, s, g, h, now, quota);
    } else {
      StillChosen(c, s, g, h, t, now, quota);
    }
  }

  lemma RunScheduled(c: Config, s: State)
    requires Reachable(c, s) && Agrees(c)
    ensures |s.threads| == c.threads && IterationsOk(c, s)
  {
    var run :| IsRun(c, run) && run[|run| - 1] == s;
    TimelyStart(c);
    var g, h := FirstStage(c), [];
    for n := 0 to |run| - 1
      invariant Timely(c, run[n], g, h) && IterationsOk(c, run[n])
    {
      StepScheduled(c, run[n], g, h, run[n + 1]);
      g, h := TimelySteps(c, run[n], g, h, run[n + 1]);
    }
  }

  // ----- main results

  /** A given iteration count is how often every thread chases in every experiment. */
  lemma GivenIterations(c: Config, s: State, e: nat, t: nat)
    requires Reachable(c, s) && Agrees(c) && |s.threads| == c.threads && s.threads[0].pc.Done?
    requires c.iterations > 0 && e < c.experiments && t < c.threads
    ensures Calls(s.sh.log, ExpW(e), t) == c.iterations
  {
    RunScheduled(c, s);
    Finished(c, s);
  }

  /** Without one, every thread chases equally often in every experiment; and at the pace of the last calibration
      round, by the clock readings of that round, these calls take from the wanted seconds up to 2^(T-1) times
      as long. */
  lemma WantedSeconds(c: Config, s: State, t: nat) returns (n: int, r: nat, d: real, least: real, most: real)
    requires Reachable(c, s) && Agrees(c) && |s.threads| == c.threads && s.threads[0].pc.Done?
    requires OneGiven(c.seconds, c.iterations) && c.iterations == 0 && t < c.threads
    ensures forall e: nat :: e < c.experiments ==> Calls(s.sh.log, ExpW(e), t) == n
    ensures LastRound(s.sh.log, r) && Took(s.sh.log, CalW(r), d) && d > 0.2
    ensures var tested := Calls(s.sh.log, CalW(r), t);
      least == WantedTime(c.seconds, tested) && most == WantedTime(c.seconds, Pow2(c.threads - 1) * tested)
    ensures Takes(n, d, least, most)
  {
    RunScheduled(c, s);
    Finished(c, s);
    var iters;
    r, iters :| Chosen(c, s.sh, r, iters);
    d := s.sh.elapsed;
    var tested := Calls(s.sh.log, CalW(r), t);
    PowHalf(c.threads, tested);
    n, least, most := TimeFrom(c.seconds, iters, d, tested, Pow2(c.threads - 1) * tested);
  }
}
