/** How many calibration rounds there can be: the count of calls doubles at least, so if every call takes time,
    the bound is soon exceeded. */
module ProtocolCalibration {
  import opened Protocol
  import opened ProtocolOpening
  import opened ProtocolTheorems
  import opened ProtocolProgress
  import opened Windows

  // ----- `elapsed` is the time of the last round, and rounds are only opened while it is within the bound

  /** The shared clock values are those of the log. */
  ghost predicate ClockOk(sh: Shared) {
    var book := Tally(sh.log);
    sh.elapsed == CalElapsed(sh.log) &&
      (book.open && book.last.Some? && book.last.value.CalW? ==> book.since == sh.istart)
  }

  /** Every round but the first was opened with an elapsed time of at most b. */
  ghost predicate Short(log: seq<Event>, b: real) {
    forall j :: 0 <= j < |log| && log[j].Start? && log[j].w.CalW? && log[j].w.r > 0 ==> CalElapsed(log[..j]) <= b
  }

  /** Thread 0 is about to open a round that it wanted. */
  ghost predicate Wanted(c: Config, s: State, g: Stage)
    requires ValidConfig(c) && |s.threads| == c.threads
  {
    g.Cal? && g.k == 1 && Eff(s.threads[0], s.bar.generation).pc.CalStart? ==> s.sh.elapsed <= Bound(c, 0)
  }

  ghost predicate Timely(c: Config, s: State, g: Stage, h: seq<Bar>) {
    Inv(c, s, g, h) && ClockOk(s.sh) && Short(s.sh.log, Bound(c, 0)) && Wanted(c, s, g)
  }

  // ----- steps

  lemma ClockAppend(sh: Shared, sh': Shared, ev: Event)
    requires ClockOk(sh) && sh'.log == sh.log + [ev] && ClockFits(sh, sh', ev)
    ensures ClockOk(sh')
  {
    TallyOne(sh.log, ev);
    CalElapsedOne(sh.log, ev);
  }

  /** The event and the clock values are written together. */
  predicate ClockFits(sh: Shared, sh': Shared, ev: Event) {
    if ev.Start? && ev.w.CalW? then sh'.istart == ev.time && sh'.elapsed == sh.elapsed
    else if ev.Stop? && ev.w.CalW? then sh'.elapsed == ev.time - Tally(sh.log).since
    else sh'.elapsed == sh.elapsed && sh'.istart == sh.istart
  }

  lemma ClockActs(sh: Shared, th: Thread, t: nat, now: real, quota: int) returns (ev: Event)
    requires ActShared(sh, th, t, now, quota).log != sh.log
    requires t == 0 && th.pc.CalStop? ==> sh.istart == Tally(sh.log).since
    ensures ActShared(sh, th, t, now, quota).log == sh.log + [ev]
    ensures ClockFits(sh, ActShared(sh, th, t, now, quota), ev)
    ensures ev.Start? && ev.w.CalW? ==> t == 0 && th.pc.CalStart?
  {
    var log' := ActShared(sh, th, t, now, quota).log;
    ev := log'[|log'| - 1];
  }

  lemma ShortAppend(log: seq<Event>, ev: Event, b: real)
    requires Short(log, b) && (ev.Start? && ev.w.CalW? && ev.w.r > 0 ==> CalElapsed(log) <= b)
    ensures Short(log + [ev], b)
  {
    var log' := log + [ev];
    forall j | 0 <= j < |log'| && log'[j].Start? && log'[j].w.CalW? && log'[j].w.r > 0
      ensures CalElapsed(log'[..j]) <= b
    {
      assert log'[..j] == log[..j];
      if j < |log| { assert log'[j] == log[j]; } else { assert log[..j] == log; }
    }
  }

  /** At the second reading of a round the book knows the first one. */
  lemma ReadsWindow(c: Config, s: State, g: Stage, h: seq<Bar>)
    requires Inv(c, s, g, h) && ClockOk(s.sh) && s.threads[0].pc.CalStop?
    ensures s.sh.istart == Tally(s.sh.log).since
  {
    assert ThreadOk(c, g, h, s.bar.generation, s.threads[0], 0, ViewOf(s, g, 0));
  }

  lemma InRoundStart(c: Config, s: State, g: Stage, h: seq<Bar>)
    requires Inv(c, s, g, h) && s.threads[0].pc.CalStart?
    ensures g.Cal? && g.k == 1
  {
    assert ThreadOk(c, g, h, s.bar.generation, s.threads[0], 0, ViewOf(s, g, 0));
  }

  /** What a step appends, and what it does to the clock values. */
  lemma ClockSteps(c: Config, s: State, g: Stage, h: seq<Bar>, t: nat, now: real, quota: int)
    requires Timely(c, s, g, h) && t < c.threads && Enabled(s, t)
    ensures var sh' := Step(c, s, t, now, quota).sh; ClockOk(sh') && Short(sh'.log, Bound(c, 0))
  {
    var th, sh' := s.threads[t], Step(c, s, t, now, quota).sh;
    if sh'.log != s.sh.log {
      if t == 0 && th.pc.CalStop? { ReadsWindow(c, s, g, h); }
      var ev := ClockActs(s.sh, th, t, now, quota);
      ClockAppend(s.sh, sh', ev);
      if th.pc.CalStart? && t == 0 { InRoundStart(c, s, g, h); }
      ShortAppend(s.sh.log, ev, Bound(c, 0));
    }
  }

  lemma ElapsedKept(c: Config, s: State, g: Stage, h: seq<Bar>, t: nat, now: real, quota: int)
    requires Inv(c, s, g, h) && t < c.threads && Enabled(s, t) && g.Cal? && g.k == 1
    ensures Step(c, s, t, now, quota).sh.elapsed == s.sh.elapsed
  {
    assert ThreadOk(c, g, h, s.bar.generation, s.threads[t], t, ViewOf(s, g, t));
  }

  lemma WantedWithin(c: Config, s: State, g: Stage, h: seq<Bar>, t: nat, now: real, quota: int)
    requires Timely(c, s, g, h) && t < c.threads && Enabled(s, t) && !Opens(c, s, t)
    ensures |Step(c, s, t, now, quota).threads| == c.threads && Wanted(c, Step(c, s, t, now, quota), g)
  {
    if g.Cal? && g.k == 1 {
      ElapsedKept(c, s, g, h, t, now, quota);
      assert ThreadOk(c, g, h, s.bar.generation, s.threads[0], 0, ViewOf(s, g, 0));
    }
  }

  lemma WantedOpening(c: Config, s: State, g: Stage, h: seq<Bar>, t: nat, b: Bar, m: nat)
    requires LastArrival(c, s, g, h, t, b)
    ensures Wanted(c, Opened(s, t), NextStage(g, b, m))
  {
    EverybodyAt(c, s, g, h, t, b, 0);
    assert ThreadOk(c, g, h, s.bar.generation, s.threads[0], 0, ViewOf(s, g, 0));
  }

  lemma TimelySteps(c: Config, s: State, g: Stage, h: seq<Bar>, s': State) returns (g': Stage, h': seq<Bar>)
    requires Timely(c, s, g, h) && Agrees(c) && Next(c, s, s')
    ensures Timely(c, s', g', h')
    ensures if s'.bar.generation == s.bar.generation then g' == g && Measure(s') < Measure(s)
            else exists b, m :: g' == NextStage(g, b, m)
  {
    CalibratesWhenAsked(c, s, g, h);
    var t, now := Taken(c, s, s');
    var quota := Scheduled(c.seconds, s.sh.iters, s.sh.elapsed);
    ClockSteps(c, s, g, h, t, now, quota);
    StepProgress(c, s, g, h, t, now, quota);
    if Opens(c, s, t) {
      var b := s.threads[t].pc.b;
      g' := OpenKeeps(c, s, g, h, t, b, now, quota);
      h' := h + [b];
      var m: nat :| g' == NextStage(g, b, m);
      WantedOpening(c, s, g, h, t, b, m);
    } else {
      g', h' := StepKeeps(c, s, g, h, t, now, quota);
      WantedWithin(c, s, g, h, t, now, quota);
    }
  }

  lemma TimelyStart(c: Config)
    requires ValidConfig(c)
    ensures Timely(c, Initial(c), FirstStage(c), [])
  {
    InitialInv(c);
  }

  lemma TimelyRun(c: Config, s: State) returns (g: Stage, h: seq<Bar>)
    requires Reachable(c, s) && Agrees(c)
    ensures Timely(c, s, g, h)
  {
    var run :| IsRun(c, run) && run[|run| - 1] == s;
    TimelyStart(c);
    g, h := FirstStage(c), [];
    for n := 0 to |run| - 1
      invariant Timely(c, run[n], g, h)
    {
      g, h := TimelySteps(c, run[n], g, h, run[n + 1]);
    }
  }

  // ----- main result

  /** n times d. */
  function Times(d: real, n: nat): real { if n == 0 then 0.0 else Times(d, n - 1) + d }

  lemma {:induction false} TimesMono(d: real, m: nat, n: nat)
    requires d >= 0.0 && m <= n
    ensures Times(d, m) <= Times(d, n)
    decreases n
  {
    if m < n { TimesMono(d, m, n - 1); }
  }

  /** Every call of thread 0 in a calibration round takes at least d on the clock. */
  ghost predicate Paced(log: seq<Event>, d: real) {
    forall j :: 0 <= j < |log| && log[j].Stop? && log[j].w.CalW? ==>
      CalElapsed(log[..j + 1]) >= Times(d, Calls(log, log[j].w, 0))
  }

  lemma RoundTime(log: seq<Event>, d: real, r: nat, j: nat)
    requires Tally(log).ok && Paced(log, d) && j < |log| && log[j].Start? && log[j].w == CalW(r + 1)
    ensures CalElapsed(log[..j]) >= Times(d, Calls(log, CalW(r), 0)) && Windows.Closed(log, CalW(r))
  {
    OpensAfterStop(log, j);
    assert log[..j - 1 + 1] == log[..j];
  }

  lemma RoundCalls(c: Config, s: State, r: nat)
    requires Reachable(c, s) && Agrees(c) && Windows.Closed(s.sh.log, CalW(r))
    ensures Calls(s.sh.log, CalW(r), 0) >= Pow2(r)
  {
    TimedWindows(c, s);
  }

  lemma RoundShort(c: Config, s: State, j: nat)
    requires Reachable(c, s) && Agrees(c) && j < |s.sh.log| && s.sh.log[j].Start? && s.sh.log[j].w.CalW?
    requires s.sh.log[j].w.r > 0
    ensures Tally(s.sh.log).ok && CalElapsed(s.sh.log[..j]) <= Bound(c, 0)
  {
    var g, h := TimelyRun(c, s);
  }

  /** If calls take at least d, round r + 1 is only opened while 2^r calls fit into the bound. */
  lemma RoundsBounded(c: Config, s: State, d: real, r: nat, j: nat)
    requires Reachable(c, s) && Agrees(c) && d > 0.0 && Paced(s.sh.log, d)
    requires j < |s.sh.log| && s.sh.log[j].Start? && s.sh.log[j].w == CalW(r + 1)
    ensures Times(d, Pow2(r)) <= Bound(c, 0)
  {
    RoundShort(c, s, j);
    RoundTime(s.sh.log, d, r, j);
    RoundCalls(c, s, r);
    TimesMono(d, Pow2(r), Calls(s.sh.log, CalW(r), 0));
  }

  /** So calibration opens no rounds but the first R + 1, if 2^R calls exceed the bound. */
  lemma CalibrationEnds(c: Config, s: State, d: real, R: nat)
    requires Reachable(c, s) && Agrees(c) && d > 0.0 && Paced(s.sh.log, d) && Times(d, Pow2(R)) > Bound(c, 0)
    ensures forall j :: 0 <= j < |s.sh.log| && s.sh.log[j].Start? && s.sh.log[j].w.CalW? ==> s.sh.log[j].w.r <= R
  {
    var log := s.sh.log;
    forall j | 0 <= j < |log| && log[j].Start? && log[j].w.CalW? ensures log[j].w.r <= R {
      if log[j].w.r > R {
        var r := log[j].w.r - 1;
        RoundsBounded(c, s, d, r, j);
        PowMono(R, r);
        TimesMono(d, Pow2(R), Pow2(r));
        assert false;
      }
    }
  }
}
