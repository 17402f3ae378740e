/** With unequal bounds some run gets stuck, and some run has calls outside their windows or windows in which
    not all threads took part. Together with the results for agreeing threads this says exactly when the
    protocol works. */
module ProtocolDisagreement {
  import opened NumberTheory
  import opened Protocol
  import opened ProtocolOpening
  import opened ProtocolTheorems
  import opened ProtocolProgress
  import opened ProtocolAgreement
  import opened BarrierCounts
  import opened Windows

  // ----- one thread has left calibration after round 0, another has not

  /** The thread takes part in round 1 or has done so. */
  predicate Stayed(th: Thread) {
    th.round >= 2 || (th.round == 1 && (AtBar(th, CalEnter) || InRoundOne(th)))
  }

  predicate InRoundOne(th: Thread) {
    || th.pc.CalStart? || AtBar(th, CalStarted) || th.pc.CalChase? || AtBar(th, CalChased)
    || th.pc.CalStop? || AtBar(th, CalStopped)
  }

  /** It has called `bench` in round 1. */
  predicate Chased(th: Thread) {
    || th.round >= 2
    || (th.round == 1 && th.pc.CalChase? && th.i > 0)
    || (th.round == 1 && (AtBar(th, CalChased) || th.pc.CalStop? || AtBar(th, CalStopped)))
  }

  /** It has passed the end of the timed window of round 1. */
  predicate Closed1(th: Thread) {
    th.round >= 2 || (th.round == 1 && AtBar(th, CalStopped))
  }

  /** Counts are positive, so every chase calls `bench`. */
  ghost predicate Positives(s: State) {
    s.sh.iters >= 1 && forall v: nat :: v < |s.threads| && s.threads[v].pc.WriteIters? ==> s.threads[v].tmp >= 1
  }

  ghost predicate Split(c: Config, s: State, t: nat, u: nat) {
    && Counted(c, s) && t < c.threads && u < c.threads && Positives(s)
    && (forall v: nat :: v < c.threads ==> Placed(c, s.threads[v]))
    && Gone(s.threads[t]) && s.threads[t].round == 1 && Stayed(s.threads[u])
  }

  /** What the log says about round 1. */
  ghost predicate Traced(log: seq<Event>, tu: Thread, t: nat, u: nat) {
    && (Chased(tu) ==> Bench(u, CalW(1)) in log)
    && (t == 0 ==> forall j :: 0 <= j < |log| && log[j].Start? ==> log[j].w != CalW(1))
    && Calls(log, CalW(1), t) == 0
    && (u == 0 && Closed1(tu) ==> Windows.Closed(log, CalW(1)))
  }

  lemma GoneStays(c: Config, s: State, t: nat, now: real)
    requires ValidConfig(c) && |s.threads| == c.threads && t < c.threads && Enabled(s, t) && Gone(s.threads[t])
    ensures Gone(Stepped(c, s, t, now)) && Stepped(c, s, t, now).round == s.threads[t].round
  {
  }

  lemma StayedStays(c: Config, s: State, u: nat, now: real)
    requires ValidConfig(c) && |s.threads| == c.threads && u < c.threads && Enabled(s, u) && Stayed(s.threads[u])
    ensures Stayed(Stepped(c, s, u, now))
  {
  }

  lemma PositivesStay(c: Config, s: State, v: nat, now: real, quota: int)
    requires ValidConfig(c) && |s.threads| == c.threads && v < c.threads && Enabled(s, v) && Positives(s)
    ensures Positives(Step(c, s, v, now, quota))
  {
    StepIs(c, s, v, now, quota);
  }

  lemma SplitKeeps(c: Config, s: State, t: nat, u: nat, v: nat, now: real, quota: int)
    requires Split(c, s, t, u) && v < c.threads && Enabled(s, v)
    ensures Split(c, Step(c, s, v, now, quota), t, u)
  {
    var s' := Step(c, s, v, now, quota);
    StepIs(c, s, v, now, quota);
    CountedKeeps(c, s, v, now, quota);
    PositivesStay(c, s, v, now, quota);
    PlacedSteps(c, s, v, now);
    if v == t { GoneStays(c, s, t, now); }
    if v == u { StayedStays(c, s, u, now); }
  }

  // ----- the log

  /** The event that a step of thread v appends, if any. */
  lemma EventOf(sh: Shared, th: Thread, v: nat, now: real, quota: int) returns (log: seq<Event>)
    ensures log == ActShared(sh, th, v, now, quota).log
    ensures log == sh.log || exists e :: log == sh.log + [e] && EventFits(e, th, v)
    ensures th.pc.CalChase? && th.i < sh.iters ==> log == sh.log + [Bench(v, CalW(th.round))]
    ensures th.pc.CalStop? && v == 0 ==> log == sh.log + [Stop(CalW(th.round), now)]
  {
    log := ActShared(sh, th, v, now, quota).log;
    if log != sh.log {
      var e := log[|sh.log|];
      assert log == sh.log + [e] && EventFits(e, th, v);
    }
  }

  predicate EventFits(e: Event, th: Thread, v: nat) {
    match e
    case Start(w, _) => v == 0 && (w.CalW? ==> th.pc.CalStart?)
    case Bench(t, w) => t == v && (w.CalW? ==> th.pc.CalChase?)
    case Stop(_, _) => v == 0
  }

  lemma TracedKept(log: seq<Event>, e: Event, th: Thread, v: nat, tu: Thread, t: nat, u: nat)
    requires Traced(log, tu, t, u) && EventFits(e, th, v) && (v == t ==> Gone(th))
    ensures Traced(log + [e], tu, t, u)
  {
    CallsOne(log, e, CalW(1), t);
    ClosedStays(log, e, CalW(1));
    if Chased(tu) { assert Bench(u, CalW(1)) in log + [e]; }
  }

  /** The log facts depend on the stayer only by how far it is. */
  lemma TracedMoves(log: seq<Event>, tu: Thread, tu': Thread, t: nat, u: nat)
    requires Traced(log, tu, t, u)
    requires Chased(tu') ==> Chased(tu) || Bench(u, CalW(1)) in log
    requires u == 0 && Closed1(tu') ==> Closed1(tu) || Windows.Closed(log, CalW(1))
    ensures Traced(log, tu', t, u)
  {
  }

  lemma ChasesFirst(c: Config, s: State, u: nat, now: real, quota: int)
    requires ValidConfig(c) && |s.threads| == c.threads && u < c.threads && Enabled(s, u) && Stayed(s.threads[u])
    requires s.sh.iters >= 1
    ensures var s' := Step(c, s, u, now, quota);
      && (Chased(Stepped(c, s, u, now)) ==> Chased(s.threads[u]) || Bench(u, CalW(1)) in s'.sh.log)
      && (u == 0 && Closed1(Stepped(c, s, u, now)) ==> Closed1(s.threads[u]) || Windows.Closed(s'.sh.log, CalW(1)))
  {
    var th := s.threads[u];
    StepIs(c, s, u, now, quota);
    var log := EventOf(s.sh, th, u, now, quota);
    if u == 0 && th.pc.CalStop? { ClosedStays(s.sh.log, Stop(CalW(th.round), now), CalW(1)); }
  }

  lemma TracedSteps(c: Config, s: State, t: nat, u: nat, v: nat, now: real, quota: int)
    requires Split(c, s, t, u) && v < c.threads && Enabled(s, v) && t != u
    requires Traced(s.sh.log, s.threads[u], t, u)
    ensures var s' := Step(c, s, v, now, quota); Traced(s'.sh.log, s'.threads[u], t, u)
  {
    var s', th := Step(c, s, v, now, quota), s.threads[v];
    StepIs(c, s, v, now, quota);
    var log := EventOf(s.sh, th, v, now, quota);
    if s'.sh.log != s.sh.log {
      var e :| log == s.sh.log + [e] && EventFits(e, th, v);
      TracedKept(s.sh.log, e, th, v, s.threads[u], t, u);
    }
    if v == u { ChasesFirst(c, s, u, now, quota); }
    TracedMoves(s'.sh.log, s.threads[u], s'.threads[u], t, u);
  }

  // ----- running on until nobody can step

  ghost predicate Parting(c: Config, s: State, t: nat, u: nat) {
    Split(c, s, t, u) && t != u && Reachable(c, s) && Traced(s.sh.log, s.threads[u], t, u)
  }

  ghost function Movers(s: State): set<nat> { set v: nat | v < |s.threads| && Enabled(s, v) }

  lemma PartStep(c: Config, s: State, t: nat, u: nat, v: nat) returns (s': State)
    requires Parting(c, s, t, u) && v < c.threads && Enabled(s, v)
    ensures Parting(c, s', t, u)
    ensures s'.bar.generation == s.bar.generation ==>
      RankOf(s', v) < RankOf(s, v) && Movers(s') - {v} == Movers(s) - {v}
    ensures s'.bar.generation >= s.bar.generation
  {
    var now, quota := s.sh.clock, Scheduled(c.seconds, s.sh.iters, s.sh.elapsed);
    s' := Extend(c, s, v, now);
    SplitKeeps(c, s, t, u, v, now, quota);
    TracedSteps(c, s, t, u, v, now, quota);
    if !Opens(c, s, v) {
      OwnRankFalls(c, s, v, now, quota, s');
      OthersMove(s, s', v);
    }
  }

  /** One thread runs until it waits, is done, or opens the barrier. */
  lemma {:induction false} RunOn(c: Config, s: State, t: nat, u: nat, v: nat) returns (s': State)
    requires Parting(c, s, t, u) && v in Movers(s)
    ensures Parting(c, s', t, u) && s'.bar.generation >= s.bar.generation
    ensures s'.bar.generation == s.bar.generation ==> v !in Movers(s') && Movers(s') - {v} == Movers(s) - {v}
    decreases RankOf(s, v)
  {
    var s1 := PartStep(c, s, t, u, v);
    if s1.bar.generation == s.bar.generation && v in Movers(s1) {
      s' := RunOn(c, s1, t, u, v);
    } else {
      s' := s1;
    }
  }

  lemma OneLess(a: set<nat>, b: set<nat>, v: nat)
    requires v in a && v !in b && b - {v} == a - {v}
    ensures |b| < |a|
  {
    assert b == a - {v};
  }

  lemma OthersMove(s: State, s': State, v: nat)
    requires v < |s.threads| == |s'.threads| && s'.bar.generation == s.bar.generation
    requires forall w: nat :: w < |s.threads| && w != v ==> s'.threads[w] == s.threads[w]
    ensures Movers(s') - {v} == Movers(s) - {v}
  {
  }

  /** The leaver's calls bound the number of openings. */
  lemma FewOpenings(c: Config, s: State, t: nat, u: nat)
    requires Split(c, s, t, u)
    ensures s.bar.generation <= 4 * c.experiments + 6
  {
    assert CallsCounted(s, t) && Placed(c, s.threads[t]);
  }

  /** However the threads part, some continuation ends in a state where nobody can step. */
  lemma {:induction false} Drive(c: Config, s: State, t: nat, u: nat) returns (s': State)
    requires Parting(c, s, t, u)
    ensures Parting(c, s', t, u) && Movers(s') == {}
    decreases 4 * c.experiments + 6 - s.bar.generation, |Movers(s)|
  {
    FewOpenings(c, s, t, u);
    s' := s;
    if Movers(s) != {} {
      var v :| v in Movers(s);
      var s1 := RunOn(c, s, t, u, v);
      FewOpenings(c, s1, t, u);
      if s1.bar.generation == s.bar.generation { OneLess(Movers(s), Movers(s1), v); }
      s' := Drive(c, s1, t, u);
    }
  }

  // ----- how the threads part

  lemma PlacedThread(c: Config, g: Stage, h: seq<Bar>, generation: nat, th: Thread, v: nat, view: View)
    requires ValidConfig(c) && v < c.threads && ThreadOk(c, g, h, generation, th, v, view)
    requires g.Cal? && g.r == 1 && g.k == 0 && |h| == 4
    ensures Placed(c, th) && (th.pc.WriteIters? ==> th.tmp >= 1)
  {
  }

  lemma PlacedAt(c: Config, s: State, g: Stage, h: seq<Bar>, v: nat)
    requires Inv(c, s, g, h) && g.Cal? && g.r == 1 && g.k == 0 && |h| == 4 && v < c.threads
    ensures Placed(c, s.threads[v]) && CallsCounted(s, v) && (s.threads[v].pc.WriteIters? ==> s.threads[v].tmp >= 1)
  {
    assert ThreadOk(c, g, h, s.bar.generation, s.threads[v], v, ViewOf(s, g, v));
    PlacedThread(c, g, h, s.bar.generation, s.threads[v], v, ViewOf(s, g, v));
  }

  lemma AllPlaced(c: Config, s: State, g: Stage, h: seq<Bar>)
    requires Inv(c, s, g, h) && g.Cal? && g.r == 1 && g.k == 0 && |h| == 4
    ensures Counted(c, s) && Positives(s) && forall v: nat :: v < c.threads ==> Placed(c, s.threads[v])
  {
    forall v: nat | v < c.threads
      ensures Placed(c, s.threads[v]) && CallsCounted(s, v) && (s.threads[v].pc.WriteIters? ==> s.threads[v].tmp >= 1)
    {
      PlacedAt(c, s, g, h, v);
    }
    PositiveCount(c, g, s.sh, |Written(s)|);
  }

  lemma PositiveCount(c: Config, g: Stage, sh: Shared, written: nat)
    requires SharedOk(c, g, sh, written) && g.Cal? && g.r == 1 && g.k == 0
    ensures sh.iters >= 1
  {
    var y :| (if written > 0 then g.m + 1 else g.m) <= y <= g.m + written && sh.iters == Pow2(y);
  }

  lemma NoRoundOne(c: Config, s: State, g: Stage, h: seq<Bar>, t: nat)
    requires Inv(c, s, g, h) && g.Cal? && g.r == 1 && g.k == 0
    ensures forall j :: 0 <= j < |s.sh.log| ==> s.sh.log[j].w != CalW(1)
    ensures Calls(s.sh.log, CalW(1), t) == 0
  {
    BookUpTo(s.sh.log);
    NoCalls(s.sh.log, CalW(1), t);
  }

  lemma TracedStart(log: seq<Event>, tu: Thread, t: nat, u: nat)
    requires (forall j :: 0 <= j < |log| ==> log[j].w != CalW(1)) && Calls(log, CalW(1), t) == 0
    requires AtBar(tu, CalEnter) && tu.round == 1
    ensures Traced(log, tu, t, u)
  {
  }

  /** Thread t stands at the barrier behind calibration and thread u at the one of round 1. */
  lemma PartingFrom(c: Config, s: State, g: Stage, h: seq<Bar>, t: nat, u: nat)
    requires Reachable(c, s) && Inv(c, s, g, h) && g.Cal? && g.r == 1 && g.k == 0 && |h| == 4
    requires t < c.threads && u < c.threads && Called(s, h, t, CalDone) && Called(s, h, u, CalEnter)
    ensures Parting(c, s, t, u)
  {
    AllPlaced(c, s, g, h);
    NoRoundOne(c, s, g, h, t);
    AtCalled(c, s, g, h, t, CalDone);
    AtCalled(c, s, g, h, u, CalEnter);
    TracedStart(s.sh.log, s.threads[u], t, u);
  }

  lemma AtCalled(c: Config, s: State, g: Stage, h: seq<Bar>, v: nat, b: Bar)
    requires Inv(c, s, g, h) && g.Cal? && g.r == 1 && g.k == 0 && v < c.threads && Called(s, h, v, b)
    ensures AtBar(s.threads[v], b) && s.threads[v].round == 1
  {
    assert ThreadOk(c, g, h, s.bar.generation, s.threads[v], v, ViewOf(s, g, v));
    assert (h + [b])[|h|] == b;
  }

  /** If thread t has a smaller bound than thread u, some run separates them and then gets stuck. */
  lemma PartAndStick(c: Config, t: nat, u: nat) returns (s: State)
    requires ValidConfig(c) && c.iterations == 0 && t < c.threads && u < c.threads && Bound(c, t) < Bound(c, u)
    ensures Parting(c, s, t, u) && Movers(s) == {}
  {
    var g, h;
    s, g, h := AnyElapsed(c, Bound(c, u));
    s := Solo(c, s, g, h, t);
    s := Solo(c, s, g, h, u);
    PartingFrom(c, s, g, h, t, u);
    s := Drive(c, s, t, u);
  }

  // ----- what the stuck state looks like

  /** Some thread is done, so at least as many barriers have opened as the shortest program calls. */
  lemma SomebodyDone(c: Config, s: State, t: nat, u: nat) returns (v: nat)
    requires Split(c, s, t, u) && Movers(s) == {}
    ensures v < c.threads && s.threads[v].pc.Done? && s.bar.generation >= 4 * c.experiments + 6
  {
    if forall w: nat :: w < c.threads ==> w in Waiting(s) {
      assert Waiting(s) == Below(c.threads);
      BelowSize(c.threads);
      assert false;
    }
    v :| v < c.threads && v !in Waiting(s);
    assert v !in Movers(s);
    assert CallsCounted(s, v) && Placed(c, s.threads[v]);
  }

  /** The stayer has more rounds to call barriers for than the leaver. */
  lemma NotBothDone(c: Config, s: State, t: nat, u: nat)
    requires Split(c, s, t, u)
    ensures !s.threads[t].pc.Done? || !s.threads[u].pc.Done?
  {
    assert CallsCounted(s, t) && CallsCounted(s, u) && Placed(c, s.threads[t]) && Placed(c, s.threads[u]);
  }

  /** A stayer that can go no further has been through round 1. */
  lemma StayerIsThrough(c: Config, s: State, t: nat, u: nat)
    requires Split(c, s, t, u) && !Enabled(s, u) && s.bar.generation >= 4 * c.experiments + 6
    ensures Chased(s.threads[u]) && (c.experiments > 0 ==> Closed1(s.threads[u]))
  {
    assert CallsCounted(s, u) && Placed(c, s.threads[u]);
  }

  lemma StuckState(c: Config, s: State, t: nat, u: nat)
    requires Split(c, s, t, u) && Movers(s) == {}
    ensures exists v: nat :: v < c.threads && !s.threads[v].pc.Done?
    ensures Chased(s.threads[u]) && (c.experiments > 0 ==> Closed1(s.threads[u]))
  {
    var v := SomebodyDone(c, s, t, u);
    NotBothDone(c, s, t, u);
    assert u !in Movers(s);
    StayerIsThrough(c, s, t, u);
  }

  // ----- main results

  ghost predicate Stuck(c: Config, s: State) {
    && |s.threads| == c.threads && (forall t: nat :: t < c.threads ==> !Enabled(s, t))
    && exists t: nat :: t < c.threads && !s.threads[t].pc.Done?
  }

  /** No run gets stuck if and only if nothing is calibrated or all bounds are equal. */
  lemma NeverStuckIff(c: Config)
    requires ValidConfig(c)
    ensures (forall s :: Reachable(c, s) ==> !Stuck(c, s)) <==> Agrees(c)
  {
    if Agrees(c) {
      forall s | Reachable(c, s) ensures !Stuck(c, s) { NoDeadlock(c, s); }
    } else {
      var t: nat, u: nat :| t < c.threads && u < c.threads && Bound(c, t) < Bound(c, u);
      var s := PartAndStick(c, t, u);
      StuckState(c, s, t, u);
      forall v: nat | v < c.threads ensures !Enabled(s, v) { assert v !in Movers(s); }
      assert Stuck(c, s);
    }
  }

  lemma {:induction false} CallsInLog(log: seq<Event>, w: Window, t: nat)
    requires Bench(t, w) in log
    ensures Calls(log, w, t) > 0
  {
    var n := |log| - 1;
    if log[n] != Bench(t, w) { CallsInLog(log[..n], w, t); }
  }

  lemma NotTimed(log: seq<Event>, w: Window, u: nat)
    requires Bench(u, w) in log && forall j :: 0 <= j < |log| && log[j].Start? ==> log[j].w != w
    ensures !Timed(log)
  {
    var i :| 0 <= i < |log| && log[i] == Bench(u, w);
  }

  /** A run in which a call lies in no window, or in which a window closes without calls of some thread. */
  lemma UntimedRun(c: Config) returns (s: State)
    requires ValidConfig(c) && !Agrees(c) && c.experiments > 0
    ensures Reachable(c, s) && !(Timed(s.sh.log) && Quotas(c, s.sh))
  {
    if u: nat :| u < c.threads && Bound(c, 0) < Bound(c, u) {
      s := PartAndStick(c, 0, u);
      StuckState(c, s, 0, u);
      NotTimed(s.sh.log, CalW(1), u);
    } else {
      var t: nat :| t < c.threads && Bound(c, t) < Bound(c, 0);
      s := PartAndStick(c, t, 0);
      StuckState(c, s, t, 0);
      CallsInLog(s.sh.log, CalW(1), 0);
    }
  }

  /** If there is an experiment: all calls lie in their windows and all threads take part in every window, in
      every run, if and only if nothing is calibrated or all bounds are equal. */
  lemma TimedWindowsIff(c: Config)
    requires ValidConfig(c) && c.experiments > 0
    ensures (forall s :: Reachable(c, s) ==> Timed(s.sh.log) && Quotas(c, s.sh)) <==> Agrees(c)
  {
    if Agrees(c) {
      forall s | Reachable(c, s) ensures Timed(s.sh.log) && Quotas(c, s.sh) { TimedWindows(c, s); }
    } else {
      var s := UntimedRun(c);
    }
  }
}
