/** The threads agree on every barrier call, in every run, exactly when they computed equal bounds. */
module ProtocolAgreement {
  import opened Protocol
  import opened ProtocolInvariant
  import opened ProtocolOpening
  import opened ProtocolTheorems
  import opened ProtocolProgress
  import opened BarrierCounts

  /** A reachable state can be stepped further. */
  lemma Extend(c: Config, s: State, t: nat, now: real) returns (s': State)
    requires Reachable(c, s) && ValidConfig(c) && |s.threads| == c.threads && t < c.threads && Enabled(s, t)
    requires s.sh.clock <= now
    ensures s' == Step(c, s, t, now, Scheduled(c.seconds, s.sh.iters, s.sh.elapsed)) && Reachable(c, s')
  {
    s' := Step(c, s, t, now, Scheduled(c.seconds, s.sh.iters, s.sh.elapsed));
    assert StepOf(c, s, t, s');
    var run :| IsRun(c, run) && run[|run| - 1] == s;
    var longer := run + [s'];
    forall k | 0 <= k < |longer| - 1 ensures Next(c, longer[k], longer[k + 1]) {
      if k < |run| - 1 { assert Next(c, run[k], run[k + 1]); }
    }
    assert IsRun(c, longer) && longer[|longer| - 1] == s';
  }

  // ----- a run whose first round takes a chosen time

  /** Thread 0 has taken the second clock reading of round 0. */
  predicate Stopped(g: Stage, leader: Thread) {
    g.Cal? && (g.r > 0 || (g.k == 3 && AtBar(leader, CalStopped)))
  }

  predicate Steered(s: State, g: Stage, time: real)
    requires |s.threads| > 0
  {
    var stopped := Stopped(g, Eff(s.threads[0], s.bar.generation));
    s.sh.istart == 0.0 && if stopped then s.sh.elapsed == time else s.sh.clock == 0.0
  }

  function ClockFor(s: State, t: nat, time: real): real
    requires t < |s.threads|
  {
    if t == 0 && s.threads[0].pc.CalStop? then time else s.sh.clock
  }

  lemma SteerAct(c: Config, g: Stage, sh: Shared, th: Thread, time: real, quota: int)
    requires ValidConfig(c) && Acting(th.pc) && InStage(c, th, g) && g.Cal? && g.r == 0 && sh.istart == 0.0
    requires if Stopped(g, th) then sh.elapsed == time else sh.clock == 0.0
    ensures var now := if th.pc.CalStop? then time else sh.clock;
      var th', sh' := ActThread(c, sh, th, 0, now), ActShared(sh, th, 0, now, quota);
      sh'.istart == 0.0 && if Stopped(g, th') then sh'.elapsed == time else sh'.clock == 0.0
  {
  }

  lemma SteerWithin(c: Config, s: State, g: Stage, h: seq<Bar>, t: nat, time: real, quota: int)
    requires Inv(c, s, g, h) && g.Cal? && g.r == 0 && t < c.threads && Enabled(s, t) && !Opens(c, s, t)
    requires Steered(s, g, time)
    ensures Steered(Step(c, s, t, ClockFor(s, t, time), quota), g, time)
  {
    assert ThreadOk(c, g, h, s.bar.generation, s.threads[0], 0, ViewOf(s, g, 0));
    StepIs(c, s, t, ClockFor(s, t, time), quota);
    if t == 0 && Acting(s.threads[0].pc) { SteerAct(c, g, s.sh, s.threads[0], time, quota); }
    if t != 0 { FollowersSpareClock(s.sh, s.threads[t], t, s.sh.clock, quota); }
  }

  lemma FollowersSpareClock(sh: Shared, th: Thread, t: nat, now: real, quota: int)
    requires t != 0
    ensures var sh' := ActShared(sh, th, t, now, quota);
      sh'.istart == sh.istart && sh'.clock == sh.clock && sh'.elapsed == sh.elapsed
  {
  }

  /** All threads are about to leave the last barrier of a round. */
  predicate RoundOver(s: State) {
    forall v :: 0 <= v < |s.threads| ==>
      s.threads[v].pc.Wait? && s.threads[v].pc.b == CalStopped && s.threads[v].pc.ticket != s.bar.generation
  }

  lemma SteerOpening(c: Config, s: State, g: Stage, h: seq<Bar>, t: nat, b: Bar, m: nat, time: real)
    requires LastArrival(c, s, g, h, t, b) && g.Cal? && g.r == 0 && g.k <= 3 && Steered(s, g, time)
    ensures NextStage(g, b, m) == if g.k < 3 then Cal(0, g.k + 1, if g.k == 0 then m else g.m) else Cal(1, 0, g.m)
    ensures Steered(Opened(s, t), NextStage(g, b, m), time)
    ensures g.k == 3 ==> RoundOver(Opened(s, t))
  {
    forall v: nat | v < c.threads ensures Opened(s, t).threads[v].pc == Wait(b, s.bar.generation) {
      EverybodyAt(c, s, g, h, t, b, v);
    }
    EverybodyAt(c, s, g, h, t, b, 0);
    assert ThreadOk(c, g, h, s.bar.generation, s.threads[0], 0, ViewOf(s, g, 0));
  }

  /** One step towards the end of round 0. */
  lemma SteerStep(c: Config, s: State, g: Stage, h: seq<Bar>, time: real) returns (s': State, g': Stage, h': seq<Bar>)
    requires Reachable(c, s) && Inv(c, s, g, h) && g.Cal? && g.r == 0 && g.k <= 3 && time >= 0.0 && Steered(s, g, time)
    ensures Reachable(c, s') && Inv(c, s', g', h') && Steered(s', g', time)
    ensures g'.Cal? && |h'| - 4 * g'.r - g'.k == |h| - 4 * g.r - g.k
    ensures (g' == g && Measure(s') < Measure(s)) || (g'.Cal? && g'.r == 0 && g'.k == g.k + 1 <= 3) ||
      (g'.Cal? && g'.r == 1 && g'.k == 0 && RoundOver(s'))
  {
    StuckIsOver(c, s, g, h);
    var t: nat :| t < c.threads && Enabled(s, t);
    var now, quota := ClockFor(s, t, time), Scheduled(c.seconds, s.sh.iters, s.sh.elapsed);
    ClockAdvances(c, s, g, h, time);
    s' := Extend(c, s, t, now);
    StepProgress(c, s, g, h, t, now, quota);
    if Opens(c, s, t) {
      var b := s.threads[t].pc.b;
      g' := OpenKeeps(c, s, g, h, t, b, now, quota);
      h' := h + [b];
      var m: nat :| g' == NextStage(g, b, m);
      SteerOpening(c, s, g, h, t, b, m, time);
    } else {
      g', h' := StepKeeps(c, s, g, h, t, now, quota);
      SteerWithin(c, s, g, h, t, time, quota);
    }
  }

  lemma ClockAdvances(c: Config, s: State, g: Stage, h: seq<Bar>, time: real)
    requires Inv(c, s, g, h) && g.Cal? && g.r == 0 && Steered(s, g, time) && time >= 0.0
    ensures forall t: nat :: t < c.threads ==> s.sh.clock <= ClockFor(s, t, time)
  {
    assert ThreadOk(c, g, h, s.bar.generation, s.threads[0], 0, ViewOf(s, g, 0));
  }

  /** Round 0 can end with any elapsed time. */
  lemma {:induction false} RoundZero(c: Config, s: State, g: Stage, h: seq<Bar>, time: real)
    returns (s': State, g': Stage, h': seq<Bar>)
    requires Reachable(c, s) && Inv(c, s, g, h) && g.Cal? && g.r == 0 && g.k <= 3 && time >= 0.0 && Steered(s, g, time)
    ensures Reachable(c, s') && Inv(c, s', g', h') && g'.Cal? && g'.r == 1 && g'.k == 0 && s'.sh.elapsed == time
    ensures |h'| - 4 == |h| - g.k && RoundOver(s')
    decreases 3 - g.k, Measure(s)
  {
    s', g', h' := SteerStep(c, s, g, h, time);
    if g'.r == 0 { s', g', h' := RoundZero(c, s', g', h', time); }
  }

  lemma AnyElapsed(c: Config, time: real) returns (s: State, g: Stage, h: seq<Bar>)
    requires ValidConfig(c) && c.iterations == 0 && time >= 0.0
    ensures Reachable(c, s) && Inv(c, s, g, h) && g.Cal? && g.r == 1 && g.k == 0 && s.sh.elapsed == time && |h| == 4
    ensures RoundOver(s)
  {
    InitialInv(c);
    assert IsRun(c, [Initial(c)]) && [Initial(c)][0] == Initial(c);
    s, g, h := RoundZero(c, Initial(c), FirstStage(c), [], time);
  }

  // ----- two threads part

  /** Thread t stands at barrier b: about to call it, or waiting in it. */
  predicate Called(s: State, h: seq<Bar>, t: nat, b: Bar)
    requires t < |s.threads|
  {
    (s.threads[t].pc == At(b) && s.threads[t].calls == h) || s.threads[t].calls == h + [b]
  }

  /** Thread t alone runs up to its next barrier call, which the elapsed time and its own bound decide. */
  lemma {:induction false} Solo(c: Config, s: State, g: Stage, h: seq<Bar>, t: nat) returns (s': State)
    requires Reachable(c, s) && Inv(c, s, g, h) && t < c.threads && g.Cal? && g.r == 1 && g.k == 0
    ensures Reachable(c, s') && Inv(c, s', g, h) && s'.sh.elapsed == s.sh.elapsed
    ensures forall u: nat :: u < c.threads && u != t ==> s'.threads[u] == s.threads[u]
    ensures Called(s', h, t, if s.sh.elapsed <= Bound(c, t) then CalEnter else CalDone)
    decreases RankOf(s, t)
  {
    var th := s.threads[t];
    assert ThreadOk(c, g, h, s.bar.generation, th, t, ViewOf(s, g, t));
    if th.pc.At? || !Enabled(s, t) {
      s' := s;
    } else {
      s' := SoloStep(c, s, g, h, t);
      s' := Solo(c, s', g, h, t);
    }
  }

  lemma ElapsedStays(c: Config, s: State, g: Stage, h: seq<Bar>, t: nat, now: real, quota: int)
    requires Inv(c, s, g, h) && t < c.threads && g.Cal? && g.k == 0 && Enabled(s, t)
    ensures Step(c, s, t, now, quota).sh.elapsed == s.sh.elapsed
  {
    assert ThreadOk(c, g, h, s.bar.generation, s.threads[t], t, ViewOf(s, g, t));
  }

  lemma SoloStep(c: Config, s: State, g: Stage, h: seq<Bar>, t: nat) returns (s': State)
    requires Reachable(c, s) && Inv(c, s, g, h) && t < c.threads && g.Cal? && g.r == 1 && g.k == 0
    requires Enabled(s, t) && !s.threads[t].pc.At?
    ensures Reachable(c, s') && Inv(c, s', g, h) && s'.sh.elapsed == s.sh.elapsed
    ensures RankOf(s', t) < RankOf(s, t)
    ensures forall u: nat :: u < c.threads && u != t ==> s'.threads[u] == s.threads[u]
  {
    var quota := Scheduled(c.seconds, s.sh.iters, s.sh.elapsed);
    s' := Extend(c, s, t, s.sh.clock);
    ElapsedStays(c, s, g, h, t, s.sh.clock, quota);
    var g', h' := StepKeeps(c, s, g, h, t, s.sh.clock, quota);
    OwnRankFalls(c, s, t, s.sh.clock, quota, s');
  }

  /** The call itself, if it has not been made. */
  lemma Call(c: Config, s: State, h: seq<Bar>, t: nat, b: Bar) returns (s': State)
    requires Reachable(c, s) && ValidConfig(c) && |s.threads| == c.threads && t < c.threads && Called(s, h, t, b)
    ensures Reachable(c, s') && |s'.threads| == c.threads && s'.threads[t].calls == h + [b] && s'.sh == s.sh
    ensures forall u: nat :: u < c.threads && u != t ==> s'.threads[u] == s.threads[u]
  {
    s' := s;
    if s.threads[t].calls == h { s' := Extend(c, s, t, s.sh.clock); }
  }

  /** Whatever round 0 took, some run has thread t decide by it: it goes on calibrating if the time is at most
      0.2 s or ten of its clock resolutions, and is done otherwise. */
  lemma BoundDecides(c: Config, t: nat, time: real) returns (s: State)
    requires ValidConfig(c) && c.iterations == 0 && t < c.threads && time >= 0.0
    ensures Reachable(c, s) && |s.threads| == c.threads && s.sh.elapsed == time && |s.threads[t].calls| == 5
    ensures s.threads[t].calls[4] == if time <= 0.2 || time <= 10.0 * c.resolution[t] then CalEnter else CalDone
  {
    var g, h;
    s, g, h := AnyElapsed(c, time);
    s := Solo(c, s, g, h, t);
    s := Call(c, s, h, t, if time <= Bound(c, t) then CalEnter else CalDone);
  }

  lemma Parted(c: Config, s: State, h: seq<Bar>, t: nat, u: nat)
    requires |s.threads| == c.threads && t < c.threads && u < c.threads
    requires s.threads[t].calls == h + [CalDone] && s.threads[u].calls == h + [CalEnter]
    ensures !InStep(c, s)
  {
    assert s.threads[t].calls[|h|] == CalDone && s.threads[u].calls[|h|] == CalEnter;
    forall h' ensures !AllBehind(s, h') {}
  }

  /** Unequal bounds: some run lets one thread leave calibration while another starts a new round. */
  lemma UnequalBoundsPart(c: Config) returns (s: State)
    requires ValidConfig(c) && c.iterations == 0 && !EqualBounds(c)
    ensures Reachable(c, s) && !InStep(c, s)
  {
    var t: nat, u: nat :| t < c.threads && u < c.threads && Bound(c, t) < Bound(c, u);
    var g, h;
    s, g, h := AnyElapsed(c, Bound(c, u));
    s := Solo(c, s, g, h, t);
    s := Solo(c, s, g, h, u);
    s := Call(c, s, h, t, CalDone);
    s := Call(c, s, h, u, CalEnter);
    Parted(c, s, h, t, u);
  }

  /** All threads make the same barrier calls in every run if and only if nothing is calibrated or all bounds
      are equal. */
  lemma AgreementIff(c: Config)
    requires ValidConfig(c)
    ensures (forall s :: Reachable(c, s) ==> InStep(c, s)) <==> Agrees(c)
  {
    if Agrees(c) {
      forall s | Reachable(c, s) ensures InStep(c, s) { SameBarrierCalls(c, s); }
    } else {
      var s := UnequalBoundsPart(c);
    }
  }
}
