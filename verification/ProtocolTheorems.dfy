/** What holds in every reachable state of the barrier protocol when all threads compute the same calibration bound. */
module ProtocolTheorems {
  import opened Wrappers
  import opened NumberTheory
  import opened Protocol
  import opened ProtocolOpening
  import opened Windows
  import opened Options

  // ----- closed windows have seen the same number of calls from every thread

  /** In every closed window all threads made equally many calls: in calibration round r at least 2^r, in an
      experiment the scheduled number. */
  ghost predicate Quotas(c: Config, sh: Shared) {
    forall w, t: nat, u: nat :: t < c.threads && u < c.threads && Closed(sh.log, w) ==>
      && Calls(sh.log, w, t) == Calls(sh.log, w, u)
      && (if w.ExpW? then Calls(sh.log, w, t) == sh.iterations else Calls(sh.log, w, t) >= Pow2(w.r))
  }

  lemma QuotasStop(c: Config, sh: Shared, sh': Shared, w: Window, x: real, n: int)
    requires Quotas(c, sh) && Tally(sh.log).ok && Tally(sh.log).last == Some(w)
    requires sh'.log == sh.log + [Stop(w, x)] && sh'.iterations == sh.iterations
    requires forall u: nat :: u < c.threads ==> Count(sh.log, u) == n
    requires if w.ExpW? then n == sh.iterations else n >= Pow2(w.r)
    ensures Quotas(c, sh')
  {
    forall v, t: nat | t < c.threads && Closed(sh'.log, v)
      ensures Calls(sh'.log, v, t) == (if v == w then n else Calls(sh.log, v, t)) && (v == w || Closed(sh.log, v))
    {
      ClosedStays(sh.log, Stop(w, x), v);
      CallsOne(sh.log, Stop(w, x), v, t);
      CountIsCalls(sh.log, t);
    }
  }

  lemma QuotasOther(c: Config, sh: Shared, sh': Shared, ev: Event)
    requires Quotas(c, sh) && Tally(sh.log).ok && !ev.Stop? && Feed(Tally(sh.log), ev).ok
    requires sh'.log == sh.log + [ev] && sh'.iterations == sh.iterations
    ensures Quotas(c, sh')
  {
    BookUpTo(sh.log);
    forall v, t: nat | t < c.threads && Closed(sh'.log, v)
      ensures Calls(sh'.log, v, t) == Calls(sh.log, v, t) && Closed(sh.log, v)
    {
      ClosedStays(sh.log, ev, v);
      CallsOne(sh.log, ev, v, t);
      var l :| 0 <= l < |sh.log| && sh.log[l].Stop? && sh.log[l].w == v;
    }
  }

  lemma QuotasSchedule(c: Config, sh: Shared, sh': Shared)
    requires Quotas(c, sh) && Tally(sh.log).ok && (Tally(sh.log).last.None? || Tally(sh.log).last.value.CalW?)
    requires sh'.log == sh.log
    ensures Quotas(c, sh')
  {
    BookUpTo(sh.log);
    forall w | Closed(sh'.log, w) ensures w.CalW? {
      var l :| 0 <= l < |sh.log| && sh.log[l].Stop? && sh.log[l].w == w;
    }
  }

  /** What a clock reading at the end of a window finds. */
  lemma StopCounts(c: Config, s: State, g: Stage, h: seq<Bar>) returns (n: int)
    requires Inv(c, s, g, h) && (s.threads[0].pc.CalStop? || s.threads[0].pc.ExpStop?)
    ensures forall u: nat :: u < c.threads ==> Count(s.sh.log, u) == n
    ensures if s.threads[0].pc.CalStop? then n >= Pow2(s.threads[0].round) else n == s.sh.iterations
    ensures Tally(s.sh.log).last ==
      Some(if s.threads[0].pc.CalStop? then CalW(s.threads[0].round) else ExpW(s.threads[0].e))
  {
    n := if s.threads[0].pc.CalStop? then s.sh.iters else s.sh.iterations;
    assert ThreadOk(c, g, h, s.bar.generation, s.threads[0], 0, ViewOf(s, g, 0));
    if g.Cal? { PowMono(g.r, g.m); }
    forall u: nat | u < c.threads ensures Count(s.sh.log, u) == n {
      assert ThreadOk(c, g, h, s.bar.generation, s.threads[u], u, ViewOf(s, g, u));
    }
  }

  /** A step appends at most one event. */
  lemma AppendsOne(c: Config, sh: Shared, th: Thread, t: nat, now: real, quota: int) returns (ev: Event)
    requires ActShared(sh, th, t, now, quota).log != sh.log
    ensures ActShared(sh, th, t, now, quota).log == sh.log + [ev]
    ensures ActShared(sh, th, t, now, quota).iterations == sh.iterations
    ensures ev.Stop? ==> t == 0 && (th.pc.CalStop? || th.pc.ExpStop?)
    ensures ev.Stop? ==> ev == Stop(if th.pc.CalStop? then CalW(th.round) else ExpW(th.e), now)
  {
    var log' := ActShared(sh, th, t, now, quota).log;
    ev := log'[|log'| - 1];
  }

  lemma SchedulesInCal(c: Config, s: State, g: Stage, h: seq<Bar>)
    requires Inv(c, s, g, h) && s.threads[0].pc.Schedule?
    ensures Tally(s.sh.log).last.None? || Tally(s.sh.log).last.value.CalW?
  {
    assert ThreadOk(c, g, h, s.bar.generation, s.threads[0], 0, ViewOf(s, g, 0));
  }

  lemma QuotasLogged(c: Config, s: State, g: Stage, h: seq<Bar>, sh': Shared, ev: Event)
    requires Inv(c, s, g, h) && Quotas(c, s.sh) && Tally(sh'.log).ok
    requires sh'.log == s.sh.log + [ev] && sh'.iterations == s.sh.iterations
    requires ev.Stop? ==> s.threads[0].pc.CalStop? || s.threads[0].pc.ExpStop?
    requires ev.Stop? ==> ev.w == if s.threads[0].pc.CalStop? then CalW(s.threads[0].round) else ExpW(s.threads[0].e)
    ensures Quotas(c, sh')
  {
    TallyOne(s.sh.log, ev);
    if ev.Stop? {
      var n := StopCounts(c, s, g, h);
      QuotasStop(c, s.sh, sh', ev.w, ev.time, n);
    } else {
      QuotasOther(c, s.sh, sh', ev);
    }
  }

  lemma QuotasKept(c: Config, s: State, g: Stage, h: seq<Bar>, t: nat, now: real, quota: int, s': State)
    requires Inv(c, s, g, h) && t < c.threads && Enabled(s, t) && s' == Step(c, s, t, now, quota)
    requires Quotas(c, s.sh) && Tally(s'.sh.log).ok
    ensures Quotas(c, s'.sh)
  {
    var th := s.threads[t];
    if s'.sh.log != s.sh.log {
      var ev := AppendsOne(c, s.sh, th, t, now, quota);
      QuotasLogged(c, s, g, h, s'.sh, ev);
    } else if t == 0 && th.pc.Schedule? {
      SchedulesInCal(c, s, g, h);
      QuotasSchedule(c, s.sh, s'.sh);
    }
  }

  // ----- runs

  ghost predicate Kept(c: Config, s: State, g: Stage, h: seq<Bar>) {
    Inv(c, s, g, h) && Quotas(c, s.sh)
  }

  lemma CalibratesWhenAsked(c: Config, s: State, g: Stage, h: seq<Bar>)
    requires Inv(c, s, g, h) && Agrees(c)
    ensures g.Cal? ==> EqualBounds(c)
  {
    assert ThreadOk(c, g, h, s.bar.generation, s.threads[0], 0, ViewOf(s, g, 0));
  }

  lemma NextKeeps(c: Config, s: State, g: Stage, h: seq<Bar>, s': State) returns (g': Stage, h': seq<Bar>)
    requires Kept(c, s, g, h) && Agrees(c) && Next(c, s, s')
    ensures Kept(c, s', g', h')
  {
    var t :| StepOf(c, s, t, s');
    var quota := Scheduled(c.seconds, s.sh.iters, s.sh.elapsed);
    var now :| s.sh.clock <= now && s' == Step(c, s, t, now, quota);
    CalibratesWhenAsked(c, s, g, h);
    g', h' := StepKeeps(c, s, g, h, t, now, quota);
    QuotasKept(c, s, g, h, t, now, quota, s');
  }

  lemma InitialKept(c: Config)
    requires ValidConfig(c)
    ensures Kept(c, Initial(c), FirstStage(c), [])
  {
    InitialInv(c);
  }

  lemma RunInvariant(c: Config, run: seq<State>) returns (g: Stage, h: seq<Bar>)
    requires IsRun(c, run) && Agrees(c)
    ensures Kept(c, run[|run| - 1], g, h)
  {
    InitialKept(c);
    g, h := FirstStage(c), [];
    for n := 0 to |run| - 1
      invariant Kept(c, run[n], g, h)
    {
      g, h := NextKeeps(c, run[n], g, h, run[n + 1]);
    }
  }

  lemma ReachableInvariant(c: Config, s: State) returns (g: Stage, h: seq<Bar>)
    requires Reachable(c, s) && Agrees(c)
    ensures Kept(c, s, g, h)
  {
    var run :| IsRun(c, run) && run[|run| - 1] == s;
    g, h := RunInvariant(c, run);
  }

  // ----- main results

  /** Every `bench` call lies between thread 0's two clock readings of its own window, no call of another
      window lies there, and in a closed window all threads have made the same number of calls. */
  lemma TimedWindows(c: Config, s: State)
    requires Reachable(c, s) && Agrees(c)
    ensures Timed(s.sh.log) && Quotas(c, s.sh)
  {
    var g, h := ReachableInvariant(c, s);
    BooksTimed(s.sh.log);
  }

  /** Some thread can step unless all are done. */
  lemma NoDeadlock(c: Config, s: State)
    requires Reachable(c, s) && Agrees(c)
    ensures |s.threads| == c.threads
    ensures (exists t: nat :: t < c.threads && Enabled(s, t)) <==>
      (exists t: nat :: t < c.threads && !s.threads[t].pc.Done?)
  {
    var g, h := ReachableInvariant(c, s);
    StuckIsOver(c, s, g, h);
  }

  lemma StuckIsOver(c: Config, s: State, g: Stage, h: seq<Bar>)
    requires Inv(c, s, g, h)
    ensures (exists t: nat :: t < c.threads && Enabled(s, t)) ||
      (g.Over? && forall t: nat :: t < c.threads ==> s.threads[t].pc.Done?)
  {
    if forall t: nat :: t < c.threads ==> !Enabled(s, t) {
      forall t: nat | t < c.threads ensures s.threads[t].pc.Done? <==> g.Over? {
        assert ThreadOk(c, g, h, s.bar.generation, s.threads[t], t, ViewOf(s, g, t));
        assert !Enabled(s, t);
      }
      if !g.Over? {
        forall t: nat | t < c.threads ensures t in Waiting(s) { assert !Enabled(s, t) && !s.threads[t].pc.Done?; }
        assert Waiting(s) == Below(c.threads);
        BelowSize(c.threads);
      }
    }
  }

  /** One sequence of barrier calls: every thread has made it up to at most the last call. */
  ghost predicate InStep(c: Config, s: State) {
    && |s.threads| == c.threads
    && exists h: seq<Bar> :: AllBehind(s, h)
  }

  ghost predicate AllBehind(s: State, h: seq<Bar>) {
    && (forall t :: 0 <= t < |s.threads| ==> s.threads[t].calls == h || Ahead(s.threads[t].calls, h))
    && (forall t, u :: 0 <= t < |s.threads| && 0 <= u < |s.threads| ==>
          s.threads[t].calls == h || s.threads[u].calls == h ||
          s.threads[t].calls == s.threads[u].calls)
  }

  predicate Ahead(calls: seq<Bar>, h: seq<Bar>) { |calls| == |h| + 1 && calls[..|h|] == h }

  lemma SameBarrierCalls(c: Config, s: State)
    requires Reachable(c, s) && Agrees(c)
    ensures InStep(c, s)
    ensures (forall t :: 0 <= t < c.threads ==> s.threads[t].pc.Done?) ==>
      forall t, u :: 0 <= t < c.threads && 0 <= u < c.threads ==> s.threads[t].calls == s.threads[u].calls
  {
    var g, h := ReachableInvariant(c, s);
    InvInStep(c, s, g, h);
    forall t | 0 <= t < c.threads && s.threads[t].pc.Done? ensures s.threads[t].calls == h {
      assert ThreadOk(c, g, h, s.bar.generation, s.threads[t], t, ViewOf(s, g, t));
    }
  }

  lemma InvInStep(c: Config, s: State, g: Stage, h: seq<Bar>)
    requires Inv(c, s, g, h) && Agrees(c)
    ensures InStep(c, s)
  {
    forall t | 0 <= t < c.threads
      ensures s.threads[t].calls == h ||
        (s.threads[t].pc.Wait? && s.threads[t].calls == h + [s.threads[t].pc.b] && t in Waiting(s))
    {
      assert ThreadOk(c, g, h, s.bar.generation, s.threads[t], t, ViewOf(s, g, t));
    }
    forall t, u | 0 <= t < c.threads && 0 <= u < c.threads && s.threads[t].calls != h && s.threads[u].calls != h
      ensures s.threads[t].calls == s.threads[u].calls
    {
      assert t in Waiting(s) && u in Waiting(s);
      var a, b := s.threads[t], s.threads[u];
      SameBar(c, g, a, t, ViewOf(s, g, t), b, u, ViewOf(s, g, u), a.pc.b, b.pc.b);
    }
    assert AllBehind(s, h);
  }

  // ----- the racy doubling of `iters`

  lemma {:induction false} PowMono(a: nat, b: nat)
    requires a <= b
    ensures Pow2(a) <= Pow2(b)
  {
    if a < b { PowMono(a, b - 1); }
  }

  lemma {:induction false} PowAdd(a: nat, b: nat)
    ensures Pow2(a + b) == Pow2(b) * Pow2(a)
  {
    if b > 0 {
      PowAdd(a, b - 1);
      assert Pow2(a + b) == 2 * Pow2(a + (b - 1));
      Regroup(Pow2(b - 1), Pow2(a));
    }
  }

  lemma Regroup(x: int, y: int)
    ensures 2 * (x * y) == (2 * x) * y
  {
  }

  lemma PowUpper(m: nat, y: nat, n: nat) returns (p: int, q: int, r: int)
    requires y <= m + n
    ensures p == Pow2(y) && q == Pow2(n) && r == Pow2(m) && p <= q * r
  {
    PowMono(y, m + n);
    PowAdd(m, n);
    p, q, r := Pow2(y), Pow2(n), Pow2(m);
  }

  lemma Spread(tested: int, iters: int, m: nat, y: nat, n: nat)
    requires tested == Pow2(m) && iters == Pow2(y) && m + 1 <= y <= m + n
    ensures tested > 0 && 2 * tested <= iters <= Pow2(n) * tested
    ensures n == 1 ==> iters == 2 * tested
  {
    var p, q, r := PowUpper(m, y, n);
    PowMono(m + 1, y);
    assert n == 1 ==> y == m + 1;
  }

  /** While thread t chases, nobody writes `iters`, and all chasers are in its round. */
  lemma ChaseTogether(c: Config, s: State, g: Stage, h: seq<Bar>, t: nat, u: nat)
    requires Inv(c, s, g, h) && t < c.threads && u < c.threads && s.threads[t].pc.CalChase?
    ensures !s.threads[u].pc.InitIters? && !s.threads[u].pc.WriteIters?
    ensures s.threads[u].pc.CalChase? ==> s.threads[u].round == s.threads[t].round
  {
    assert ThreadOk(c, g, h, s.bar.generation, s.threads[t], t, ViewOf(s, g, t));
    assert ThreadOk(c, g, h, s.bar.generation, s.threads[u], u, ViewOf(s, g, u));
  }

  lemma ChaseCount(c: Config, s: State, g: Stage, h: seq<Bar>, t: nat)
    requires Inv(c, s, g, h) && t < c.threads && s.threads[t].pc.CalChase?
    ensures PowBetween(s.sh.iters, s.threads[t].round, s.threads[t].round * c.threads)
  {
    assert ThreadOk(c, g, h, s.bar.generation, s.threads[t], t, ViewOf(s, g, t));
  }

  /** While anybody chases in round r, `iters` is one power of two, between 2^r and 2^(r*T), whatever
      thread steps next. */
  lemma ItersDuringChase(c: Config, s: State, t: nat)
    requires Reachable(c, s) && Agrees(c) && t < |s.threads| == c.threads && s.threads[t].pc.CalChase?
    ensures PowBetween(s.sh.iters, s.threads[t].round, s.threads[t].round * c.threads)
    ensures forall s' :: Next(c, s, s') ==> s'.sh.iters == s.sh.iters
    ensures forall u: nat :: u < c.threads && s.threads[u].pc.CalChase? ==> s.threads[u].round == s.threads[t].round
  {
    var g, h := ReachableInvariant(c, s);
    ChaseCount(c, s, g, h, t);
    forall u: nat | u < c.threads
      ensures !s.threads[u].pc.InitIters? && !s.threads[u].pc.WriteIters?
      ensures s.threads[u].pc.CalChase? ==> s.threads[u].round == s.threads[t].round
    {
      ChaseTogether(c, s, g, h, t, u);
    }
    forall s' | Next(c, s, s') ensures s'.sh.iters == s.sh.iters { NobodyWrites(c, s, s'); }
  }

  lemma NobodyWrites(c: Config, s: State, s': State)
    requires Next(c, s, s') && |s.threads| == c.threads
    requires forall u: nat :: u < c.threads ==> !s.threads[u].pc.InitIters? && !s.threads[u].pc.WriteIters?
    ensures s'.sh.iters == s.sh.iters
  {
    var u: nat :| StepOf(c, s, u, s');
  }

  lemma WrittenSome(c: Config, s: State, g: Stage, h: seq<Bar>)
    requires Inv(c, s, g, h) && s.threads[0].pc.Schedule?
    ensures g.Cal? && g.k == 0 && g.r == s.threads[0].round > 0 && 1 <= |Written(s)| <= c.threads
  {
    assert ThreadOk(c, g, h, s.bar.generation, s.threads[0], 0, ViewOf(s, g, 0));
    assert 0 in Written(s);
    SubsetSize(Written(s), Below(c.threads));
    BelowSize(c.threads);
  }

  lemma ScheduleCounts(c: Config, s: State, g: Stage, h: seq<Bar>, t: nat) returns (m: nat, y: nat)
    requires Inv(c, s, g, h) && s.threads[0].pc.Schedule? && t < c.threads
    ensures s.threads[0].round > 0 && Tally(s.sh.log).last == Some(CalW(s.threads[0].round - 1))
    ensures Count(s.sh.log, t) == Pow2(m) && s.sh.iters == Pow2(y) && m + 1 <= y <= m + c.threads
  {
    WrittenSome(c, s, g, h);
    assert ThreadOk(c, g, h, s.bar.generation, s.threads[t], t, ViewOf(s, g, t));
    m := g.m;
    y :| m + 1 <= y <= m + |Written(s)| && s.sh.iters == Pow2(y);
  }

  /** The count that thread 0 schedules from is 2 to 2^T times what every thread ran in the last round. */
  lemma ScheduledFrom(c: Config, s: State, t: nat)
    requires Reachable(c, s) && Agrees(c)
    requires t < |s.threads| == c.threads && s.threads[0].pc.Schedule?
    ensures s.threads[0].round > 0
    ensures var tested := Calls(s.sh.log, CalW(s.threads[0].round - 1), t);
      && tested > 0 && 2 * tested <= s.sh.iters <= Pow2(c.threads) * tested
      && (c.threads == 1 ==> s.sh.iters == 2 * tested)
  {
    var g, h := ReachableInvariant(c, s);
    var m, y := ScheduleCounts(c, s, g, h, t);
    CountIsCalls(s.sh.log, t);
    Spread(Count(s.sh.log, t), s.sh.iters, m, y, c.threads);
  }

  lemma ScheduleElapsed(c: Config, s: State)
    requires Reachable(c, s) && Agrees(c) && |s.threads| == c.threads && s.threads[0].pc.Schedule?
    ensures c.iterations == 0 && s.sh.elapsed > 0.2
  {
    var g, h := ReachableInvariant(c, s);
    assert ThreadOk(c, g, h, s.bar.generation, s.threads[0], 0, ViewOf(s, g, 0));
  }

  /** With settings from an accepted command line, calibration is only done for a positive number of seconds,
      and what thread 0 schedules comes from the formula for those. */
  lemma SchedulesBySeconds(c: Config, s: State)
    requires Reachable(c, s) && Agrees(c) && OneGiven(c.seconds, c.iterations)
    requires |s.threads| == c.threads && s.threads[0].pc.Schedule?
    ensures c.seconds > 0.0 && s.sh.elapsed > 0.2
    ensures Scheduled(c.seconds, s.sh.iters, s.sh.elapsed) == BySeconds(c.seconds, s.sh.iters, s.sh.elapsed)
  {
    ScheduleElapsed(c, s);
  }

  // ----- the end of a run

  /** When all threads are done, each has called `bench` exactly `iterations` times in each experiment and
      in no other, and the recorded seconds are the positive differences of the clock readings, in order. */
  lemma Finished(c: Config, s: State)
    requires Reachable(c, s) && Agrees(c)
    requires |s.threads| == c.threads && s.threads[0].pc.Done?
    ensures s.sh.iterations >= 1
    ensures forall e: nat, t: nat :: t < c.threads ==>
      Calls(s.sh.log, ExpW(e), t) == if e < c.experiments then s.sh.iterations else 0
    ensures s.sh.seconds == Tally(s.sh.log).deltas
  {
    var g, h := ReachableInvariant(c, s);
    assert ThreadOk(c, g, h, s.bar.generation, s.threads[0], 0, ViewOf(s, g, 0));
    forall e: nat, t: nat | t < c.threads
      ensures Calls(s.sh.log, ExpW(e), t) == if e < c.experiments then s.sh.iterations else 0
    {
      BookUpTo(s.sh.log);
      if e < c.experiments { ExperimentsClosed(s.sh.log, e); } else { NoCalls(s.sh.log, ExpW(e), t); }
    }
  }
}
