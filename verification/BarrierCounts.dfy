/** What holds of barrier calls in every run, whether or not the threads agree: each thread has called as many
    barriers as have opened, plus the one it waits in, and its program point tells how many these are. */
module BarrierCounts {
  import opened NumberTheory
  import opened Protocol
  import opened ProtocolInvariant
  import opened ProtocolOpening

  // ----- calls and openings

  ghost predicate CallsCounted(s: State, v: nat)
    requires v < |s.threads|
  {
    && (s.threads[v].pc.Wait? ==> s.threads[v].pc.ticket <= s.bar.generation)
    && |s.threads[v].calls| == s.bar.generation + (if v in Waiting(s) then 1 else 0)
  }

  ghost predicate Counted(c: Config, s: State) {
    && ValidConfig(c) && |s.threads| == c.threads && |Waiting(s)| == s.bar.arrived < c.threads
    && forall v: nat :: v < c.threads ==> CallsCounted(s, v)
  }

  /** A step that is no arrival changes neither calls nor openings. */
  lemma CountedAct(c: Config, s: State, v: nat, th: Thread, sh: Shared)
    requires Counted(c, s) && v < c.threads && Enabled(s, v) && !s.threads[v].pc.At?
    requires !th.pc.Wait? && th.calls == s.threads[v].calls
    ensures Counted(c, After(s, v, th, sh))
  {
    var s' := After(s, v, th, sh);
    assert Waiting(s') == Waiting(s);
    forall w: nat | w < c.threads ensures CallsCounted(s', w) { assert CallsCounted(s, w); }
  }

  lemma CountedArrive(c: Config, s: State, v: nat)
    requires Counted(c, s) && v < c.threads && s.threads[v].pc.At? && !Opens(c, s, v)
    ensures Counted(c, Arrived(s, v, s.bar.(arrived := s.bar.arrived + 1)))
  {
    var bar := s.bar.(arrived := s.bar.arrived + 1);
    var s' := Arrived(s, v, bar);
    ArriveSets(s, v, bar);
    forall w: nat | w < c.threads ensures CallsCounted(s', w) {
      assert CallsCounted(s, w);
      assert w != v ==> (w in Waiting(s') <==> w in Waiting(s));
    }
  }

  lemma OthersWait(c: Config, s: State, v: nat, w: nat)
    requires Counted(c, s) && v < c.threads && Opens(c, s, v) && w < c.threads && w != v
    ensures w in Waiting(s)
  {
    AllButOne(Waiting(s), v, c.threads, w);
  }

  lemma CountedOpen(c: Config, s: State, v: nat)
    requires Counted(c, s) && v < c.threads && Opens(c, s, v)
    ensures Counted(c, Opened(s, v))
  {
    var s' := Opened(s, v);
    forall w: nat | w < c.threads
      ensures s'.threads[w].pc.Wait? && s'.threads[w].pc.ticket == s.bar.generation
      ensures |s'.threads[w].calls| == s.bar.generation + 1
    {
      assert CallsCounted(s, w);
      if w != v { OthersWait(c, s, v, w); }
    }
    assert Waiting(s') == {};
    forall w: nat | w < c.threads ensures CallsCounted(s', w) {}
  }

  lemma CountedKeeps(c: Config, s: State, v: nat, now: real, quota: int)
    requires Counted(c, s) && v < c.threads && Enabled(s, v)
    ensures Counted(c, Step(c, s, v, now, quota))
  {
    var th := s.threads[v];
    if th.pc.At? {
      if Opens(c, s, v) { CountedOpen(c, s, v); } else { CountedArrive(c, s, v); }
    } else if th.pc.Wait? {
      CountedAct(c, s, v, Leave(th), s.sh);
    } else {
      CountedAct(c, s, v, ActThread(c, s.sh, th, v, now), ActShared(s.sh, th, v, now, quota));
    }
  }

  // ----- calls and program points

  /** Calls that a thread has made when it stands at a program point behind the first round. */
  function Made(pc: PC, r: nat, e: nat): int {
    match pc
    case Check | InitIters => 0
    case ReadIters | WriteIters | CalTest | Schedule | At(CalEnter) | At(CalDone) => 4 * r
    case Wait(CalEnter, _) | CalStart | At(CalStarted) => 4 * r + 1
    case Wait(CalStarted, _) | CalChase | At(CalChased) => 4 * r + 2
    case Wait(CalChased, _) | CalStop | At(CalStopped) => 4 * r + 3
    case Wait(CalStopped, _) => 4 * r + 4
    case Wait(CalDone, _) | ExpTest | At(ExpEnter) | At(Final) => 4 * r + 4 * e + 1
    case Wait(ExpEnter, _) | ExpStart | At(ExpStarted) | Wait(Final, _) | Done => 4 * r + 4 * e + 2
    case Wait(ExpStarted, _) | ExpChase | At(ExpChased) => 4 * r + 4 * e + 3
    case Wait(ExpChased, _) | ExpStop | At(ExpStopped) => 4 * r + 4 * e + 4
    case Wait(ExpStopped, _) | Record => 4 * r + 4 * e + 5
  }

  /** The thread runs experiments, or is about to. */
  predicate Gone(th: Thread) {
    || th.pc.Schedule? || AtBar(th, CalDone) || th.pc.ExpTest? || AtBar(th, ExpEnter) || th.pc.ExpStart?
    || AtBar(th, ExpStarted) || th.pc.ExpChase? || AtBar(th, ExpChased) || th.pc.ExpStop? || AtBar(th, ExpStopped)
    || th.pc.Record? || AtBar(th, Final) || th.pc.Done?
  }

  predicate Ended(th: Thread) { AtBar(th, Final) || th.pc.Done? }

  /** Behind round 0, with as many calls as the program point says. */
  predicate Placed(c: Config, th: Thread) {
    && !th.pc.Check? && !th.pc.InitIters? && |th.calls| == Made(th.pc, th.round, th.e)
    && (th.round >= 1 || (th.pc.Wait? && th.pc.b == CalStopped))
    && (Gone(th) ==> th.e <= c.experiments) && (!Gone(th) || th.pc.Schedule? || AtBar(th, CalDone) ==> th.e == 0)
    && (Ended(th) ==> th.e == c.experiments)
    && (Gone(th) && !Ended(th) && !th.pc.ExpTest? && !th.pc.Schedule? && !AtBar(th, CalDone) ==> th.e < c.experiments)
  }

  lemma PlacedLeaves(c: Config, th: Thread)
    requires Placed(c, th) && th.pc.Wait?
    ensures Placed(c, Leave(th)) && Leave(th).calls == th.calls && !Leave(th).pc.Wait?
  {
  }

  lemma PlacedActs(c: Config, sh: Shared, th: Thread, v: nat, now: real)
    requires ValidConfig(c) && v < c.threads && Placed(c, th) && Acting(th.pc)
    ensures var th' := ActThread(c, sh, th, v, now); Placed(c, th') && th'.calls == th.calls && !th'.pc.Wait?
  {
  }

  lemma PlacedCalls(c: Config, th: Thread, ticket: nat)
    requires Placed(c, th) && th.pc.At?
    ensures Placed(c, th.(pc := Wait(th.pc.b, ticket), calls := th.calls + [th.pc.b]))
  {
  }

  /** What a step makes of the thread that takes it. */
  function Stepped(c: Config, s: State, v: nat, now: real): Thread
    requires ValidConfig(c) && |s.threads| == c.threads && v < c.threads && Enabled(s, v)
  {
    var th := s.threads[v];
    if th.pc.At? then th.(pc := Wait(th.pc.b, s.bar.generation), calls := th.calls + [th.pc.b])
    else if th.pc.Wait? then Leave(th)
    else ActThread(c, s.sh, th, v, now)
  }

  lemma StepIs(c: Config, s: State, v: nat, now: real, quota: int)
    requires ValidConfig(c) && |s.threads| == c.threads && v < c.threads && Enabled(s, v)
    ensures var s' := Step(c, s, v, now, quota);
      && s'.threads == s.threads[v := Stepped(c, s, v, now)]
      && s'.sh == if Acting(s.threads[v].pc) then ActShared(s.sh, s.threads[v], v, now, quota) else s.sh
  {
  }

  lemma PlacedSteps(c: Config, s: State, v: nat, now: real)
    requires ValidConfig(c) && |s.threads| == c.threads && v < c.threads && Enabled(s, v) && Placed(c, s.threads[v])
    ensures Placed(c, Stepped(c, s, v, now))
  {
    var th := s.threads[v];
    if th.pc.At? {
      PlacedCalls(c, th, s.bar.generation);
    } else if th.pc.Wait? {
      PlacedLeaves(c, th);
    } else {
      PlacedActs(c, s.sh, th, v, now);
    }
  }
}
