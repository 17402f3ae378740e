/** The last arrival at a barrier moves all threads to the next stage together. */
module ProtocolOpening {
  import opened NumberTheory
  import opened Protocol
  import opened ProtocolInvariant

  /** All threads computed the same calibration bound. */
  ghost predicate EqualBounds(c: Config)
    requires ValidConfig(c)
  {
    forall t, u :: 0 <= t < c.threads && 0 <= u < c.threads ==> Bound(c, t) == Bound(c, u)
  }

  /** No calibration, or one with equal bounds. */
  ghost predicate Agrees(c: Config) {
    ValidConfig(c) && (c.iterations > 0 || EqualBounds(c))
  }

  /** A resolution of 0.02 s or better is below the fixed bound. */
  lemma FineClocksAgree(c: Config)
    requires ValidConfig(c) && forall t :: 0 <= t < c.threads ==> c.resolution[t] <= 0.02
    ensures Agrees(c)
  {
  }

  /** The stage behind barrier b; m is the exponent of the round that is entered. */
  function NextStage(g: Stage, b: Bar, m: nat): Stage {
    match g
    case Cal(r, k, m0) =>
      if k == 0 then (if b == CalEnter then Cal(r, 1, m) else Exp(0, 0))
      else if k < 3 then Cal(r, k + 1, m0) else Cal(r + 1, 0, m0)
    case Exp(e, k) =>
      if k == 0 then (if b == ExpEnter then Exp(e, 1) else Over)
      else if k < 3 then Exp(e, k + 1) else Exp(e + 1, 0)
    case Over => Over
  }

  lemma AllWaiting(c: Config, s: State, g: Stage, h: seq<Bar>, t: nat, u: nat)
    requires Inv(c, s, g, h) && t < c.threads && s.threads[t].pc.At? && s.bar.arrived + 1 == c.threads
    requires u < c.threads && u != t
    ensures u in Waiting(s)
  {
    AllButOne(Waiting(s), t, c.threads, u);
  }

  /** The barrier at which a thread leaves a stage. */
  function BarOf(c: Config, g: Stage, u: nat, elapsed: real): Bar
    requires ValidConfig(c) && u < c.threads
  {
    match g
    case Cal(r, k, _) =>
      if k == 0 then (if r == 0 || elapsed <= Bound(c, u) then CalEnter else CalDone)
      else if k == 1 then CalStarted else if k == 2 then CalChased else CalStopped
    case Exp(e, k) =>
      if k == 0 then (if e < c.experiments then ExpEnter else Final)
      else if k == 1 then ExpStarted else if k == 2 then ExpChased else ExpStopped
    case Over => Final
  }

  lemma StandsAt(c: Config, g: Stage, th: Thread, u: nat, v: View, b: Bar)
    requires ValidConfig(c) && u < c.threads && AtBar(th, b) && InStage(c, th, g) && Facts(c, g, th, u, v)
    ensures b == BarOf(c, g, u, v.elapsed)
  {
  }

  /** Who stands at a barrier of a stage stands at the same barrier as everybody else of that stage. */
  lemma SameBar(c: Config, g: Stage, th: Thread, u: nat, v: View, th': Thread, u': nat, v': View, b: Bar, b': Bar)
    requires ValidConfig(c) && u < c.threads && u' < c.threads && v.elapsed == v'.elapsed
    requires AtBar(th, b) && InStage(c, th, g) && Facts(c, g, th, u, v)
    requires AtBar(th', b') && InStage(c, th', g) && Facts(c, g, th', u', v')
    requires g.Cal? && g.r > 0 ==> Bound(c, u) == Bound(c, u')
    ensures b == b'
  {
    StandsAt(c, g, th, u, v, b);
    StandsAt(c, g, th', u', v', b');
  }

  /** What thread u brings from stage g through barrier b into the next stage. */
  lemma OpenThread(c: Config, g: Stage, h: seq<Bar>, generation: nat, th: Thread, th': Thread, u: nat, sh: Shared,
                   written: nat, b: Bar, m: nat)
    requires ValidConfig(c) && u < c.threads && ThreadOk(c, g, h, generation, th, u, ViewIn(g, sh, u, written))
    requires th.pc == At(b) || th.pc == Wait(b, generation)
    requires th' == th.(pc := Wait(b, generation), calls := h + [b])
    requires (g.Cal? || g.Exp?) && g.k == 1 ==> Count(sh.log, u) == 0
    requires g.Cal? && g.k > 0 ==> sh.iters == Pow2(g.m)
    requires g.Exp? ==> sh.iterations >= 0
    ensures ThreadOk(c, NextStage(g, b, m), h + [b], generation + 1, th', u, ViewIn(NextStage(g, b, m), sh, u, 0))
  {
    assert Eff(th', generation + 1) == Leave(th');
    assert AtBar(th, b) && Eff(th, generation) == th;
  }

  lemma RoundBounds(r: nat, threads: nat, m: nat, y: nat)
    requires r > 0 && r - 1 <= m <= (r - 1) * threads && m + 1 <= y <= m + threads
    ensures r <= y <= r * threads
  {
    assert r * threads == (r - 1) * threads + threads;
  }

  lemma OpenShared(c: Config, g: Stage, sh: Shared, written: nat, th: Thread, b: Bar, m: nat)
    requires SharedOk(c, g, sh, written) && InStage(c, th, g) && AtBar(th, b)
    requires LeaderOk(g, th, Tally(sh.log), sh.seconds, sh.iterations)
    requires g.Cal? && g.k == 0 && b == CalEnter ==> sh.iters == Pow2(m) && g.r <= m <= g.r * c.threads
    ensures SharedOk(c, NextStage(g, b, m), sh, 0)
  {
    if g.Cal? && g.k == 3 { assert PowBetween(sh.iters, g.m, g.m + 0); }
  }

  lemma OpenLeader(c: Config, g: Stage, th: Thread, th': Thread, book: Book, seconds: seq<real>, iterations: int,
                   b: Bar, m: nat)
    requires LeaderOk(g, th, book, seconds, iterations) && InStage(c, th, g) && AtBar(th, b)
    requires th'.pc.Wait? && th'.pc.b == b && th' == th.(pc := th'.pc, calls := th'.calls)
    ensures LeaderOk(NextStage(g, b, m), Leave(th'), book, seconds, iterations)
  {
  }

  /** The exponent of the round that starts, once every thread has doubled. */
  lemma NewExponent(c: Config, g: Stage, sh: Shared, written: nat) returns (m: nat)
    requires SharedOk(c, g, sh, written) && g.Cal? && g.k == 0 && written == c.threads > 0
    ensures sh.iters == Pow2(m) && g.r <= m <= g.r * c.threads
  {
    if g.r == 0 {
      m := 0;
    } else {
      var y :| g.m + 1 <= y <= g.m + written && sh.iters == Pow2(y);
      m := y;
      RoundBounds(g.r, c.threads, g.m, m);
    }
  }

  /** The situation just before the last arrival: everybody else waits at the same barrier. */
  ghost predicate LastArrival(c: Config, s: State, g: Stage, h: seq<Bar>, t: nat, b: Bar)
  {
    && Inv(c, s, g, h) && t < c.threads
    && s.threads[t].pc == At(b) && s.bar.arrived + 1 == c.threads
    && (g.Cal? && g.r > 0 ==> EqualBounds(c))
  }

  lemma EverybodyAt(c: Config, s: State, g: Stage, h: seq<Bar>, t: nat, b: Bar, u: nat)
    requires LastArrival(c, s, g, h, t, b) && u < c.threads
    ensures s.threads[u].pc == if u == t then At(b) else Wait(b, s.bar.generation)
    ensures s.threads[u].calls == if u == t then h else h + [b]
    ensures Eff(s.threads[u], s.bar.generation) == s.threads[u] && AtBar(s.threads[u], b)
  {
    var th := s.threads[u];
    assert ThreadOk(c, g, h, s.bar.generation, s.threads[t], t, ViewOf(s, g, t));
    assert ThreadOk(c, g, h, s.bar.generation, th, u, ViewOf(s, g, u));
    if u != t {
      AllWaiting(c, s, g, h, t, u);
      SameBar(c, g, s.threads[t], t, ViewOf(s, g, t), th, u, ViewOf(s, g, u), b, th.pc.b);
    }
  }

  lemma OpenCounts(c: Config, s: State, g: Stage, h: seq<Bar>, t: nat, b: Bar, u: nat)
    requires LastArrival(c, s, g, h, t, b) && u < c.threads && (g.Cal? || g.Exp?) && g.k == 1
    ensures Count(s.sh.log, u) == 0
  {
    EverybodyAt(c, s, g, h, t, b, 0);
    assert ThreadOk(c, g, h, s.bar.generation, s.threads[0], 0, ViewOf(s, g, 0));
    assert Tally(s.sh.log).open;
  }

  lemma OpenExponent(c: Config, s: State, g: Stage, h: seq<Bar>, t: nat, b: Bar) returns (m: nat)
    requires LastArrival(c, s, g, h, t, b) && g.Cal? && g.k == 0
    ensures s.sh.iters == Pow2(m) && g.r <= m <= g.r * c.threads
  {
    forall u: nat | u < c.threads ensures u in Written(s) { EverybodyAt(c, s, g, h, t, b, u); }
    assert Written(s) == Below(c.threads);
    BelowSize(c.threads);
    m := NewExponent(c, g, s.sh, |Written(s)|);
  }

  function Opened(s: State, t: nat): State
    requires t < |s.threads| && s.threads[t].pc.At?
  {
    Arrived(s, t, Barrier(0, s.bar.generation + 1))
  }

  lemma OpenedThread(c: Config, s: State, g: Stage, h: seq<Bar>, t: nat, b: Bar, m: nat, u: nat)
    requires LastArrival(c, s, g, h, t, b) && u < c.threads
    ensures ThreadOk(c, NextStage(g, b, m), h + [b], s.bar.generation + 1, Opened(s, t).threads[u], u,
                     ViewIn(NextStage(g, b, m), s.sh, u, 0))
  {
    EverybodyAt(c, s, g, h, t, b, u);
    if (g.Cal? || g.Exp?) && g.k == 1 { OpenCounts(c, s, g, h, t, b, u); }
    OpenThread(c, g, h, s.bar.generation, s.threads[u], Opened(s, t).threads[u], u, s.sh, |Written(s)|, b, m);
  }

  lemma OpenedSets(c: Config, s: State, g: Stage, h: seq<Bar>, t: nat, b: Bar)
    requires LastArrival(c, s, g, h, t, b)
    ensures Waiting(Opened(s, t)) == {}
    ensures g.Cal? && g.k == 3 ==> Written(Opened(s, t)) == {}
  {
    forall u: nat | u < c.threads ensures Opened(s, t).threads[u].pc == Wait(b, s.bar.generation) {
      EverybodyAt(c, s, g, h, t, b, u);
    }
    if g.Cal? && g.k == 3 {
      assert ThreadOk(c, g, h, s.bar.generation, s.threads[t], t, ViewOf(s, g, t));
      assert b == CalStopped;
    }
  }

  /** The number of finished writers matters only at the start of a round. */
  lemma WrittenMatters(c: Config, g: Stage, sh: Shared, u: nat, written: nat)
    requires g.Cal? && g.k == 0 ==> written == 0
    ensures ViewIn(g, sh, u, written) == ViewIn(g, sh, u, 0)
    ensures SharedOk(c, g, sh, 0) ==> SharedOk(c, g, sh, written)
  {
  }

  lemma OpenedThreads(c: Config, s: State, g: Stage, h: seq<Bar>, t: nat, b: Bar, m: nat)
    requires LastArrival(c, s, g, h, t, b)
    ensures ThreadsOk(c, Opened(s, t), NextStage(g, b, m), h + [b])
  {
    var s', g' := Opened(s, t), NextStage(g, b, m);
    OpenedSets(c, s, g, h, t, b);
    forall u | 0 <= u < c.threads
      ensures ThreadOk(c, g', h + [b], s'.bar.generation, s'.threads[u], u, ViewOf(s', g', u))
    {
      OpenedThread(c, s, g, h, t, b, m, u);
      NextStart(c, s, g, h, t, b, m);
      WrittenMatters(c, g', s.sh, u, |Written(s')|);
    }
  }

  lemma NextStart(c: Config, s: State, g: Stage, h: seq<Bar>, t: nat, b: Bar, m: nat)
    requires LastArrival(c, s, g, h, t, b)
    ensures NextStage(g, b, m).Cal? && NextStage(g, b, m).k == 0 ==> |Written(Opened(s, t))| == 0
  {
    OpenedSets(c, s, g, h, t, b);
    assert ThreadOk(c, g, h, s.bar.generation, s.threads[t], t, ViewOf(s, g, t));
  }

  lemma OpenedShared(c: Config, s: State, g: Stage, h: seq<Bar>, t: nat, b: Bar, m: nat)
    requires LastArrival(c, s, g, h, t, b)
    requires g.Cal? && g.k == 0 ==> s.sh.iters == Pow2(m) && g.r <= m <= g.r * c.threads
    ensures SharedOk(c, NextStage(g, b, m), s.sh, |Written(Opened(s, t))|)
    ensures LeaderOk(NextStage(g, b, m), Eff(Opened(s, t).threads[0], s.bar.generation + 1), Tally(s.sh.log),
      s.sh.seconds, s.sh.iterations)
  {
    EverybodyAt(c, s, g, h, t, b, 0);
    assert ThreadOk(c, g, h, s.bar.generation, s.threads[0], 0, ViewOf(s, g, 0));
    OpenShared(c, g, s.sh, |Written(s)|, s.threads[0], b, m);
    NextStart(c, s, g, h, t, b, m);
    WrittenMatters(c, NextStage(g, b, m), s.sh, 0, |Written(Opened(s, t))|);
    OpenLeader(c, g, s.threads[0], Opened(s, t).threads[0], Tally(s.sh.log), s.sh.seconds, s.sh.iterations, b, m);
  }

  /** The step that opens the barrier leads to the next stage. */
  lemma OpenKeeps(c: Config, s: State, g: Stage, h: seq<Bar>, t: nat, b: Bar, now: real, quota: int) returns (g': Stage)
    requires LastArrival(c, s, g, h, t, b)
    ensures Step(c, s, t, now, quota) == Opened(s, t) && Inv(c, Opened(s, t), g', h + [b])
    ensures exists m :: g' == NextStage(g, b, m)
  {
    var m := 0;
    if g.Cal? && g.k == 0 { m := OpenExponent(c, s, g, h, t, b); }
    g' := NextStage(g, b, m);
    OpenedSets(c, s, g, h, t, b);
    OpenedThreads(c, s, g, h, t, b, m);
    OpenedShared(c, s, g, h, t, b, m);
    OpenIs(c, s, t, now, quota);
  }

  lemma OpenIs(c: Config, s: State, t: nat, now: real, quota: int)
    requires ValidConfig(c) && |s.threads| == c.threads && t < c.threads && Opens(c, s, t)
    ensures Step(c, s, t, now, quota) == Opened(s, t)
  {
  }

  /** The step of thread t is the arrival that opens the barrier. */
  predicate Opens(c: Config, s: State, t: nat)
    requires t < |s.threads|
  {
    s.threads[t].pc.At? && s.bar.arrived + 1 == c.threads
  }

  /** Every step keeps the invariant: within the stage, or into the next one. */
  lemma StepKeeps(c: Config, s: State, g: Stage, h: seq<Bar>, t: nat, now: real, quota: int)
    returns (g': Stage, h': seq<Bar>)
    requires Inv(c, s, g, h) && t < c.threads && Enabled(s, t) && quota >= 1
    requires Opens(c, s, t) && g.Cal? && g.r > 0 ==> EqualBounds(c)
    ensures Inv(c, Step(c, s, t, now, quota), g', h')
    ensures if Opens(c, s, t) then h' == h + [s.threads[t].pc.b] && exists m :: g' == NextStage(g, s.threads[t].pc.b, m)
            else g' == g && h' == h
  {
    g', h' := g, h;
    match s.threads[t].pc
    case Check => CheckKeeps(c, s, g, h, t, now, quota);
    case InitIters => InitItersKeeps(c, s, g, h, t, now, quota);
    case CalTest => CalTestKeeps(c, s, g, h, t, now, quota);
    case CalStart => CalStartKeeps(c, s, g, h, t, now, quota);
    case CalChase => CalChaseKeeps(c, s, g, h, t, now, quota);
    case CalStop => CalStopKeeps(c, s, g, h, t, now, quota);
    case ReadIters => ReadKeeps(c, s, g, h, t, now, quota);
    case WriteIters => WriteKeeps(c, s, g, h, t, now, quota);
    case Schedule => ScheduleKeeps(c, s, g, h, t, now, quota);
    case ExpTest => ExpTestKeeps(c, s, g, h, t, now, quota);
    case ExpStart => ExpStartKeeps(c, s, g, h, t, now, quota);
    case ExpChase => ExpChaseKeeps(c, s, g, h, t, now, quota);
    case ExpStop => ExpStopKeeps(c, s, g, h, t, now, quota);
    case Record => RecordKeeps(c, s, g, h, t, now, quota);
    case Wait(_, _) => LeaveKeeps(c, s, g, h, t, now, quota);
    case At(b) =>
      if s.bar.arrived + 1 < c.threads {
        ArriveKeeps(c, s, g, h, t, now, quota);
      } else {
        g' := OpenKeeps(c, s, g, h, t, b, now, quota);
        h' := h + [b];
      }
  }
}
