/** Every step keeps the invariant of the barrier protocol. */
module ProtocolInvariant {
  import opened Protocol

  // ----- framing

  function After(s: State, t: nat, th: Thread, sh: Shared): State
    requires t < |s.threads|
  {
    State(s.threads[t := th], s.bar, sh)
  }

  lemma SameSets(s: State, t: nat, th: Thread, sh: Shared)
    requires t < |s.threads| && !th.pc.Wait? && Enabled(s, t)
    requires Doubled(th) == Doubled(Eff(s.threads[t], s.bar.generation))
    ensures Waiting(After(s, t, th, sh)) == Waiting(s) && Written(After(s, t, th, sh)) == Written(s)
  {
  }

  /** A step of thread t that leaves the barrier alone and the other threads' view as it was. */
  lemma Frame(c: Config, s: State, g: Stage, h: seq<Bar>, t: nat, th: Thread, sh: Shared)
    requires Inv(c, s, g, h) && t < c.threads && !th.pc.Wait? && Enabled(s, t)
    requires Doubled(th) == Doubled(Eff(s.threads[t], s.bar.generation))
    requires forall u :: 0 <= u < c.threads && u != t ==>
      ViewIn(g, sh, u, |Written(s)|) == ViewIn(g, s.sh, u, |Written(s)|)
    requires ThreadOk(c, g, h, s.bar.generation, th, t, ViewIn(g, sh, t, |Written(s)|))
    requires SharedOk(c, g, sh, |Written(s)|)
    requires LeaderOk(g, if t == 0 then th else Eff(s.threads[0], s.bar.generation), Tally(sh.log), sh.seconds,
      sh.iterations)
    ensures Inv(c, After(s, t, th, sh), g, h)
  {
    SameSets(s, t, th, sh);
    var s' := After(s, t, th, sh);
    forall u | 0 <= u < c.threads ensures ThreadOk(c, g, h, s'.bar.generation, s'.threads[u], u, ViewOf(s', g, u)) {
      if u != t { assert s'.threads[u] == s.threads[u]; }
    }
  }

  predicate Acting(pc: PC) { !pc.At? && !pc.Wait? && !pc.Done? }

  /** The same for the step itself, whose effect is th and sh. */
  lemma FrameStep(c: Config, s: State, g: Stage, h: seq<Bar>, t: nat, now: real, quota: int, th: Thread, sh: Shared)
    requires Inv(c, s, g, h) && t < c.threads && Acting(s.threads[t].pc) && !th.pc.Wait?
    requires th == ActThread(c, s.sh, s.threads[t], t, now) && sh == ActShared(s.sh, s.threads[t], t, now, quota)
    requires Doubled(th) == Doubled(s.threads[t])
    requires forall u :: 0 <= u < c.threads && u != t ==>
      ViewIn(g, sh, u, |Written(s)|) == ViewIn(g, s.sh, u, |Written(s)|)
    requires ThreadOk(c, g, h, s.bar.generation, th, t, ViewIn(g, sh, t, |Written(s)|))
    requires SharedOk(c, g, sh, |Written(s)|)
    requires LeaderOk(g, if t == 0 then th else Eff(s.threads[0], s.bar.generation), Tally(sh.log), sh.seconds,
      sh.iterations)
    ensures Inv(c, Step(c, s, t, now, quota), g, h)
  {
    Frame(c, s, g, h, t, th, sh);
    assert Step(c, s, t, now, quota) == After(s, t, th, sh);
  }

  /** A step of another thread than 0 that changes no shared value. */
  lemma FrameQuiet(c: Config, s: State, g: Stage, h: seq<Bar>, t: nat, now: real, quota: int, th: Thread)
    requires Inv(c, s, g, h) && 0 < t < c.threads && Acting(s.threads[t].pc) && !th.pc.Wait?
    requires th == ActThread(c, s.sh, s.threads[t], t, now) && s.sh == ActShared(s.sh, s.threads[t], t, now, quota)
    requires Doubled(th) == Doubled(s.threads[t])
    requires ThreadOk(c, g, h, s.bar.generation, th, t, ViewOf(s, g, t))
    ensures Inv(c, Step(c, s, t, now, quota), g, h)
  {
    FrameStep(c, s, g, h, t, now, quota, th, s.sh);
  }

  // ----- steps that only move one thread

  lemma LeftOk(c: Config, g: Stage, h: seq<Bar>, generation: nat, th: Thread, u: nat, v: View)
    requires ValidConfig(c) && u < c.threads && ThreadOk(c, g, h, generation, th, u, v)
    requires th.pc.Wait? && th.pc.ticket != generation
    ensures ThreadOk(c, g, h, generation, Leave(th), u, v) && !Leave(th).pc.Wait?
    ensures Eff(th, generation) == Leave(th)
  {
  }

  lemma LeaveKeeps(c: Config, s: State, g: Stage, h: seq<Bar>, t: nat, now: real, quota: int)
    requires Inv(c, s, g, h) && t < c.threads && Enabled(s, t) && s.threads[t].pc.Wait?
    ensures Inv(c, Step(c, s, t, now, quota), g, h)
  {
    LeftOk(c, g, h, s.bar.generation, s.threads[t], t, ViewOf(s, g, t));
    Frame(c, s, g, h, t, Leave(s.threads[t]), s.sh);
  }

  lemma CheckKeeps(c: Config, s: State, g: Stage, h: seq<Bar>, t: nat, now: real, quota: int)
    requires Inv(c, s, g, h) && t < c.threads && s.threads[t].pc.Check?
    ensures Inv(c, Step(c, s, t, now, quota), g, h)
  {
    var th := s.threads[t];
    FrameStep(c, s, g, h, t, now, quota, th.(pc := if s.sh.iterations == 0 then InitIters else ExpTest), s.sh);
  }

  lemma InitItersKeeps(c: Config, s: State, g: Stage, h: seq<Bar>, t: nat, now: real, quota: int)
    requires Inv(c, s, g, h) && t < c.threads && s.threads[t].pc.InitIters?
    ensures Inv(c, Step(c, s, t, now, quota), g, h)
  {
    var th := s.threads[t];
    FrameStep(c, s, g, h, t, now, quota, th.(pc := CalTest), s.sh.(iters := 1));
  }

  lemma CalTestKeeps(c: Config, s: State, g: Stage, h: seq<Bar>, t: nat, now: real, quota: int)
    requires Inv(c, s, g, h) && t < c.threads && s.threads[t].pc.CalTest?
    ensures Inv(c, Step(c, s, t, now, quota), g, h)
  {
    var th := s.threads[t];
    assert g.Cal? && g == Cal(th.round, 0, g.m);
    FrameStep(c, s, g, h, t, now, quota, th.(pc := if s.sh.elapsed <= Bound(c, t) then At(CalEnter) else Schedule),
      s.sh);
  }

  lemma ExpTestMoves(c: Config, g: Stage, h: seq<Bar>, generation: nat, th: Thread, u: nat, v: View)
    requires ValidConfig(c) && u < c.threads && ThreadOk(c, g, h, generation, th, u, v) && th.pc.ExpTest?
    ensures g == Exp(th.e, 0)
    ensures ThreadOk(c, g, h, generation, th.(pc := if th.e < c.experiments then At(ExpEnter) else At(Final)), u, v)
  {
  }

  lemma ExpTestKeeps(c: Config, s: State, g: Stage, h: seq<Bar>, t: nat, now: real, quota: int)
    requires Inv(c, s, g, h) && t < c.threads && s.threads[t].pc.ExpTest?
    ensures Inv(c, Step(c, s, t, now, quota), g, h)
  {
    var th := s.threads[t];
    ExpTestMoves(c, g, h, s.bar.generation, th, t, ViewOf(s, g, t));
    FrameStep(c, s, g, h, t, now, quota, th.(pc := if th.e < c.experiments then At(ExpEnter) else At(Final)), s.sh);
  }

  lemma ReadKeeps(c: Config, s: State, g: Stage, h: seq<Bar>, t: nat, now: real, quota: int)
    requires Inv(c, s, g, h) && t < c.threads && s.threads[t].pc.ReadIters?
    ensures Inv(c, Step(c, s, t, now, quota), g, h)
  {
    var th := s.threads[t];
    assert g.Cal? && g == Cal(th.round, 0, g.m);
    var y :| g.m <= y <= g.m + |Written(s)| && s.sh.iters == Pow2(y);
    FrameStep(c, s, g, h, t, now, quota, th.(pc := WriteIters, tmp := s.sh.iters), s.sh);
  }

  lemma ScheduleKeeps(c: Config, s: State, g: Stage, h: seq<Bar>, t: nat, now: real, quota: int)
    requires Inv(c, s, g, h) && t < c.threads && s.threads[t].pc.Schedule? && quota >= 1
    ensures Inv(c, Step(c, s, t, now, quota), g, h)
  {
    var th := s.threads[t];
    assert g.Cal? && g == Cal(th.round, 0, g.m);
    FrameStep(c, s, g, h, t, now, quota, th.(pc := At(CalDone)), if t == 0 then s.sh.(iterations := quota) else s.sh);
  }

  lemma RecordMoves(c: Config, g: Stage, h: seq<Bar>, generation: nat, th: Thread, u: nat, v: View)
    requires ValidConfig(c) && u < c.threads && ThreadOk(c, g, h, generation, th, u, v) && th.pc.Record?
    ensures g == Exp(th.e + 1, 0) && ThreadOk(c, g, h, generation, th.(pc := ExpTest, e := th.e + 1), u, v)
  {
  }

  lemma RecordLeads(g: Stage, th: Thread, book: Book, seconds: seq<real>, iterations: int)
    requires th.pc.Record? && g == Exp(th.e + 1, 0) && LeaderOk(g, th, book, seconds, iterations)
    ensures LeaderOk(g, th.(pc := ExpTest, e := th.e + 1), book, seconds + Positive(th.stop - th.start), iterations)
  {
  }

  lemma RecordKeeps(c: Config, s: State, g: Stage, h: seq<Bar>, t: nat, now: real, quota: int)
    requires Inv(c, s, g, h) && t < c.threads && s.threads[t].pc.Record?
    ensures Inv(c, Step(c, s, t, now, quota), g, h)
  {
    if t == 0 { LeaderRecordKeeps(c, s, g, h, now, quota); } else { FollowerRecordKeeps(c, s, g, h, t, now, quota); }
  }

  lemma LeaderRecordKeeps(c: Config, s: State, g: Stage, h: seq<Bar>, now: real, quota: int)
    requires Inv(c, s, g, h) && s.threads[0].pc.Record?
    ensures Inv(c, Step(c, s, 0, now, quota), g, h)
  {
    var th := s.threads[0];
    var th', sh' := th.(pc := ExpTest, e := th.e + 1), s.sh.(seconds := s.sh.seconds + Positive(th.stop - th.start));
    RecordMoves(c, g, h, s.bar.generation, th, 0, ViewOf(s, g, 0));
    RecordLeads(g, th, Tally(s.sh.log), s.sh.seconds, s.sh.iterations);
    FrameStep(c, s, g, h, 0, now, quota, th', sh');
  }

  lemma FollowerRecordKeeps(c: Config, s: State, g: Stage, h: seq<Bar>, t: nat, now: real, quota: int)
    requires Inv(c, s, g, h) && 0 < t < c.threads && s.threads[t].pc.Record?
    ensures Inv(c, Step(c, s, t, now, quota), g, h)
  {
    var th := s.threads[t];
    RecordMoves(c, g, h, s.bar.generation, th, t, ViewOf(s, g, t));
    FrameQuiet(c, s, g, h, t, now, quota, th.(pc := ExpTest, e := th.e + 1));
  }

  // ----- clock readings of thread 0 and `bench` calls

  lemma LogStart(log: seq<Event>, w: Window, x: real)
    ensures Tally(log + [Start(w, x)]) == Feed(Tally(log), Start(w, x))
    ensures forall u: nat :: Count(log + [Start(w, x)], u) == 0
  {
    TallyOne(log, Start(w, x));
    forall u: nat ensures Count(log + [Start(w, x)], u) == 0 { CountOne(log, Start(w, x), u); }
  }

  lemma LogStop(log: seq<Event>, w: Window, x: real)
    ensures Tally(log + [Stop(w, x)]) == Feed(Tally(log), Stop(w, x))
    ensures forall u: nat :: Count(log + [Stop(w, x)], u) == Count(log, u)
  {
    TallyOne(log, Stop(w, x));
    forall u: nat ensures Count(log + [Stop(w, x)], u) == Count(log, u) { CountOne(log, Stop(w, x), u); }
  }

  lemma LogBench(log: seq<Event>, t: nat, w: Window)
    ensures Tally(log + [Bench(t, w)]) == Feed(Tally(log), Bench(t, w))
    ensures forall u: nat :: Count(log + [Bench(t, w)], u) == Count(log, u) + (if u == t then 1 else 0)
  {
    TallyOne(log, Bench(t, w));
    forall u: nat ensures Count(log + [Bench(t, w)], u) == Count(log, u) + (if u == t then 1 else 0) {
      CountOne(log, Bench(t, w), u);
    }
  }

  lemma CalStartMoves(c: Config, g: Stage, h: seq<Bar>, generation: nat, th: Thread, u: nat, v: View)
    requires ValidConfig(c) && u < c.threads && ThreadOk(c, g, h, generation, th, u, v) && th.pc.CalStart?
    ensures g.Cal? && g == Cal(th.round, 1, g.m) && ThreadOk(c, g, h, generation, th.(pc := At(CalStarted)), u, v)
  {
  }

  lemma CalStartLeads(g: Stage, th: Thread, book: Book, seconds: seq<real>, iterations: int, x: real)
    requires th.pc.CalStart? && g.Cal? && g == Cal(th.round, 1, g.m) && book.ok
    requires LeaderOk(g, th, book, seconds, iterations)
    ensures var book' := Feed(book, Start(CalW(th.round), x));
      book'.ok && LeaderOk(g, th.(pc := At(CalStarted)), book', seconds, iterations)
  {
  }

  lemma CalStartKeeps(c: Config, s: State, g: Stage, h: seq<Bar>, t: nat, now: real, quota: int)
    requires Inv(c, s, g, h) && t < c.threads && s.threads[t].pc.CalStart?
    ensures Inv(c, Step(c, s, t, now, quota), g, h)
  {
    var th := s.threads[t];
    if t == 0 {
      CalStartMoves(c, g, h, s.bar.generation, th, t, ViewOf(s, g, t));
      CalStartLeads(g, th, Tally(s.sh.log), s.sh.seconds, s.sh.iterations, now);
      LogStart(s.sh.log, CalW(th.round), now);
      FrameStep(c, s, g, h, t, now, quota, th.(pc := At(CalStarted)),
        s.sh.(istart := now, clock := now, log := s.sh.log + [Start(CalW(th.round), now)]));
    } else {
      CalStartMoves(c, g, h, s.bar.generation, th, t, ViewOf(s, g, t));
      FrameQuiet(c, s, g, h, t, now, quota, th.(pc := At(CalStarted)));
    }
  }

  lemma ExpStartMoves(c: Config, g: Stage, h: seq<Bar>, generation: nat, th: Thread, u: nat, v: View, x: real)
    requires ValidConfig(c) && u < c.threads && ThreadOk(c, g, h, generation, th, u, v) && th.pc.ExpStart?
    ensures g == Exp(th.e, 1) && ThreadOk(c, g, h, generation, th.(pc := At(ExpStarted), start := x), u, v)
  {
  }

  lemma ExpStartLeads(g: Stage, th: Thread, book: Book, seconds: seq<real>, iterations: int, x: real)
    requires th.pc.ExpStart? && g == Exp(th.e, 1) && book.ok && LeaderOk(g, th, book, seconds, iterations)
    ensures var book' := Feed(book, Start(ExpW(th.e), x));
      book'.ok && LeaderOk(g, th.(pc := At(ExpStarted), start := x), book', seconds, iterations)
  {
  }

  lemma ExpStartKeeps(c: Config, s: State, g: Stage, h: seq<Bar>, t: nat, now: real, quota: int)
    requires Inv(c, s, g, h) && t < c.threads && s.threads[t].pc.ExpStart?
    ensures Inv(c, Step(c, s, t, now, quota), g, h)
  {
    var th := s.threads[t];
    if t == 0 {
      ExpStartMoves(c, g, h, s.bar.generation, th, t, ViewOf(s, g, t), now);
      ExpStartLeads(g, th, Tally(s.sh.log), s.sh.seconds, s.sh.iterations, now);
      LogStart(s.sh.log, ExpW(th.e), now);
      FrameStep(c, s, g, h, t, now, quota, th.(pc := At(ExpStarted), start := now),
        s.sh.(clock := now, log := s.sh.log + [Start(ExpW(th.e), now)]));
    } else {
      ExpStartMoves(c, g, h, s.bar.generation, th, t, ViewOf(s, g, t), 0.0);
      FrameQuiet(c, s, g, h, t, now, quota, th.(pc := At(ExpStarted), start := 0.0));
    }
  }

  lemma CalStopMoves(c: Config, g: Stage, h: seq<Bar>, generation: nat, th: Thread, u: nat, v: View)
    requires ValidConfig(c) && u < c.threads && ThreadOk(c, g, h, generation, th, u, v) && th.pc.CalStop?
    ensures g.Cal? && g == Cal(th.round, 3, g.m) && ThreadOk(c, g, h, generation, th.(pc := At(CalStopped)), u, v)
  {
  }

  lemma CalStopLeads(g: Stage, th: Thread, book: Book, seconds: seq<real>, iterations: int, x: real)
    requires th.pc.CalStop? && g.Cal? && g == Cal(th.round, 3, g.m) && book.ok
    requires LeaderOk(g, th, book, seconds, iterations)
    ensures var book' := Feed(book, Stop(CalW(th.round), x));
      book'.ok && LeaderOk(g, th.(pc := At(CalStopped)), book', seconds, iterations)
  {
  }

  lemma LeaderCalStopKeeps(c: Config, s: State, g: Stage, h: seq<Bar>, now: real, quota: int)
    requires Inv(c, s, g, h) && s.threads[0].pc.CalStop?
    ensures Inv(c, Step(c, s, 0, now, quota), g, h)
  {
    var th := s.threads[0];
    var th', ev := th.(pc := At(CalStopped)), Stop(CalW(th.round), now);
    var sh' := s.sh.(elapsed := now - s.sh.istart, clock := now, log := s.sh.log + [ev]);
    CalStopMoves(c, g, h, s.bar.generation, th, 0, ViewOf(s, g, 0));
    CalStopLeads(g, th, Tally(s.sh.log), s.sh.seconds, s.sh.iterations, now);
    LogStop(s.sh.log, CalW(th.round), now);
    FrameStep(c, s, g, h, 0, now, quota, th', sh');
  }

  lemma CalStopKeeps(c: Config, s: State, g: Stage, h: seq<Bar>, t: nat, now: real, quota: int)
    requires Inv(c, s, g, h) && t < c.threads && s.threads[t].pc.CalStop?
    ensures Inv(c, Step(c, s, t, now, quota), g, h)
  {
    if t == 0 {
      LeaderCalStopKeeps(c, s, g, h, now, quota);
    } else {
      CalStopMoves(c, g, h, s.bar.generation, s.threads[t], t, ViewOf(s, g, t));
      FrameQuiet(c, s, g, h, t, now, quota, s.threads[t].(pc := At(CalStopped)));
    }
  }

  lemma ExpStopMoves(c: Config, g: Stage, h: seq<Bar>, generation: nat, th: Thread, u: nat, v: View, x: real)
    requires ValidConfig(c) && u < c.threads && ThreadOk(c, g, h, generation, th, u, v) && th.pc.ExpStop?
    ensures g == Exp(th.e, 3) && ThreadOk(c, g, h, generation, th.(pc := At(ExpStopped), stop := x), u, v)
  {
  }

  lemma ExpStopLeads(g: Stage, th: Thread, book: Book, seconds: seq<real>, iterations: int, x: real)
    requires th.pc.ExpStop? && g == Exp(th.e, 3) && book.ok && LeaderOk(g, th, book, seconds, iterations)
    ensures var book' := Feed(book, Stop(ExpW(th.e), x));
      book'.ok && LeaderOk(g, th.(pc := At(ExpStopped), stop := x), book', seconds, iterations)
  {
  }

  lemma ExpStopKeeps(c: Config, s: State, g: Stage, h: seq<Bar>, t: nat, now: real, quota: int)
    requires Inv(c, s, g, h) && t < c.threads && s.threads[t].pc.ExpStop?
    ensures Inv(c, Step(c, s, t, now, quota), g, h)
  {
    var th := s.threads[t];
    if t == 0 {
      ExpStopMoves(c, g, h, s.bar.generation, th, t, ViewOf(s, g, t), now);
      ExpStopLeads(g, th, Tally(s.sh.log), s.sh.seconds, s.sh.iterations, now);
      LogStop(s.sh.log, ExpW(th.e), now);
      FrameStep(c, s, g, h, t, now, quota, th.(pc := At(ExpStopped), stop := now),
        s.sh.(clock := now, log := s.sh.log + [Stop(ExpW(th.e), now)]));
    } else {
      ExpStopMoves(c, g, h, s.bar.generation, th, t, ViewOf(s, g, t), 0.0);
      FrameQuiet(c, s, g, h, t, now, quota, th.(pc := At(ExpStopped), stop := 0.0));
    }
  }

  lemma CalChaseMoves(c: Config, g: Stage, h: seq<Bar>, generation: nat, th: Thread, u: nat, v: View)
    requires ValidConfig(c) && u < c.threads && ThreadOk(c, g, h, generation, th, u, v) && th.pc.CalChase?
    ensures g.Cal? && g == Cal(th.round, 2, g.m)
    ensures th.i < v.quota ==> ThreadOk(c, g, h, generation, th.(i := th.i + 1), u, v.(count := v.count + 1))
    ensures th.i >= v.quota ==> ThreadOk(c, g, h, generation, th.(pc := At(CalChased)), u, v)
  {
  }

  lemma CalChaseKeeps(c: Config, s: State, g: Stage, h: seq<Bar>, t: nat, now: real, quota: int)
    requires Inv(c, s, g, h) && t < c.threads && s.threads[t].pc.CalChase?
    ensures Inv(c, Step(c, s, t, now, quota), g, h)
  {
    var th := s.threads[t];
    CalChaseMoves(c, g, h, s.bar.generation, th, t, ViewOf(s, g, t));
    if th.i < s.sh.iters {
      LogBench(s.sh.log, t, CalW(th.round));
      FrameStep(c, s, g, h, t, now, quota, th.(i := th.i + 1), s.sh.(log := s.sh.log + [Bench(t, CalW(th.round))]));
    } else {
      FrameStep(c, s, g, h, t, now, quota, th.(pc := At(CalChased)), s.sh);
    }
  }

  lemma ExpChaseMoves(c: Config, g: Stage, h: seq<Bar>, generation: nat, th: Thread, u: nat, v: View)
    requires ValidConfig(c) && u < c.threads && ThreadOk(c, g, h, generation, th, u, v) && th.pc.ExpChase?
    ensures g == Exp(th.e, 2)
    ensures th.i < v.quota ==> ThreadOk(c, g, h, generation, th.(i := th.i + 1), u, v.(count := v.count + 1))
    ensures th.i >= v.quota ==> ThreadOk(c, g, h, generation, th.(pc := At(ExpChased)), u, v)
  {
  }

  lemma ExpChaseKeeps(c: Config, s: State, g: Stage, h: seq<Bar>, t: nat, now: real, quota: int)
    requires Inv(c, s, g, h) && t < c.threads && s.threads[t].pc.ExpChase?
    ensures Inv(c, Step(c, s, t, now, quota), g, h)
  {
    var th := s.threads[t];
    ExpChaseMoves(c, g, h, s.bar.generation, th, t, ViewOf(s, g, t));
    if th.i < s.sh.iterations {
      LogBench(s.sh.log, t, ExpW(th.e));
      FrameStep(c, s, g, h, t, now, quota, th.(i := th.i + 1), s.sh.(log := s.sh.log + [Bench(t, ExpW(th.e))]));
    } else {
      FrameStep(c, s, g, h, t, now, quota, th.(pc := At(ExpChased)), s.sh);
    }
  }

  // ----- the racy doubling

  lemma WrittenGrows(s: State, t: nat, th: Thread, sh: Shared)
    requires t < |s.threads| && !s.threads[t].pc.Wait? && !th.pc.Wait? && !Doubled(s.threads[t]) && Doubled(th)
    ensures Waiting(After(s, t, th, sh)) == Waiting(s)
    ensures |Written(After(s, t, th, sh))| == |Written(s)| + 1
  {
    assert Waiting(After(s, t, th, sh)) == Waiting(s);
    assert t !in Written(s) && Written(After(s, t, th, sh)) == Written(s) + {t};
  }

  /** More finished writers only widen what a pending write may hold. */
  lemma MoreWritten(c: Config, g: Stage, h: seq<Bar>, generation: nat, th: Thread, u: nat, v: View)
    requires ValidConfig(c) && u < c.threads && ThreadOk(c, g, h, generation, th, u, v) && g.Cal? && g.k == 0
    ensures ThreadOk(c, g, h, generation, th, u, v.(written := v.written + 1))
  {
    var e := Eff(th, generation);
    if e.pc.WriteIters? {
      var y :| g.m <= y <= g.m + v.written && e.tmp == Pow2(y);
      assert PowBetween(e.tmp, g.m, g.m + (v.written + 1));
    }
  }

  lemma WriteMoves(c: Config, g: Stage, h: seq<Bar>, generation: nat, th: Thread, u: nat, v: View)
    requires ValidConfig(c) && u < c.threads && ThreadOk(c, g, h, generation, th, u, v) && th.pc.WriteIters?
    ensures g.Cal? && g.k == 0 && g.r > 0 && PowBetween(2 * th.tmp, g.m + 1, g.m + (v.written + 1))
    ensures ThreadOk(c, g, h, generation, th.(pc := CalTest), u, v.(written := v.written + 1))
  {
    var y :| g.m <= y <= g.m + v.written && th.tmp == Pow2(y);
    assert 2 * th.tmp == Pow2(y + 1);
  }

  lemma WriteKeeps(c: Config, s: State, g: Stage, h: seq<Bar>, t: nat, now: real, quota: int)
    requires Inv(c, s, g, h) && t < c.threads && s.threads[t].pc.WriteIters?
    ensures Inv(c, Step(c, s, t, now, quota), g, h)
  {
    var th := s.threads[t];
    var th', sh' := th.(pc := CalTest), s.sh.(iters := 2 * th.tmp);
    var s' := After(s, t, th', sh');
    WriteMoves(c, g, h, s.bar.generation, th, t, ViewOf(s, g, t));
    WrittenGrows(s, t, th', sh');
    forall u | 0 <= u < c.threads ensures ThreadOk(c, g, h, s'.bar.generation, s'.threads[u], u, ViewOf(s', g, u)) {
      if u != t { MoreWritten(c, g, h, s.bar.generation, s.threads[u], u, ViewOf(s, g, u)); }
    }
    assert Step(c, s, t, now, quota) == s';
  }

  // ----- arriving at a barrier that stays closed

  lemma ArriveMoves(c: Config, g: Stage, h: seq<Bar>, generation: nat, th: Thread, u: nat, v: View)
    requires ValidConfig(c) && u < c.threads && ThreadOk(c, g, h, generation, th, u, v) && th.pc.At?
    ensures ThreadOk(c, g, h, generation, th.(pc := Wait(th.pc.b, generation), calls := th.calls + [th.pc.b]), u, v)
  {
  }

  /** The state in which thread t has arrived at its barrier. */
  function Arrived(s: State, t: nat, bar: Barrier): State
    requires t < |s.threads| && s.threads[t].pc.At?
  {
    var th := s.threads[t];
    State(s.threads[t := th.(pc := Wait(th.pc.b, s.bar.generation), calls := th.calls + [th.pc.b])], bar, s.sh)
  }

  lemma ArriveWaits(s: State, t: nat, bar: Barrier)
    requires t < |s.threads| && s.threads[t].pc.At? && bar.generation == s.bar.generation
    ensures |Waiting(Arrived(s, t, bar))| == |Waiting(s)| + 1
  {
    assert Waiting(Arrived(s, t, bar)) == Waiting(s) + {t} && t !in Waiting(s);
  }

  lemma ArriveWrites(s: State, t: nat, bar: Barrier)
    requires t < |s.threads| && s.threads[t].pc.At? && bar.generation == s.bar.generation
    ensures Written(Arrived(s, t, bar)) == Written(s)
  {
    var s' := Arrived(s, t, bar);
    forall u: nat | u < |s.threads|
      ensures Doubled(Eff(s'.threads[u], s'.bar.generation)) == Doubled(Eff(s.threads[u], s.bar.generation))
    {
      if u != t { assert s'.threads[u] == s.threads[u]; }
    }
  }

  lemma ArriveSets(s: State, t: nat, bar: Barrier)
    requires t < |s.threads| && s.threads[t].pc.At? && bar.generation == s.bar.generation
    ensures |Waiting(Arrived(s, t, bar))| == |Waiting(s)| + 1 && Written(Arrived(s, t, bar)) == Written(s)
  {
    ArriveWaits(s, t, bar);
    ArriveWrites(s, t, bar);
  }

  lemma ArriveThreads(c: Config, s: State, g: Stage, h: seq<Bar>, t: nat, bar: Barrier)
    requires ValidConfig(c) && ThreadsOk(c, s, g, h) && t < c.threads && s.threads[t].pc.At?
    requires bar.generation == s.bar.generation
    ensures ThreadsOk(c, Arrived(s, t, bar), g, h)
  {
    var s' := Arrived(s, t, bar);
    ArriveSets(s, t, bar);
    ArriveMoves(c, g, h, s.bar.generation, s.threads[t], t, ViewOf(s, g, t));
    forall u | 0 <= u < c.threads ensures ThreadOk(c, g, h, s'.bar.generation, s'.threads[u], u, ViewOf(s', g, u)) {
      if u != t { assert s'.threads[u] == s.threads[u]; }
    }
  }

  lemma ArriveIs(c: Config, s: State, t: nat, now: real, quota: int)
    requires ValidConfig(c) && |s.threads| == c.threads && t < c.threads && s.threads[t].pc.At?
    requires s.bar.arrived + 1 < c.threads
    ensures Step(c, s, t, now, quota) == Arrived(s, t, s.bar.(arrived := s.bar.arrived + 1))
  {
  }

  /** Arriving makes no difference to what thread 0 knows. */
  lemma ArriveLeads(g: Stage, s: State, t: nat, bar: Barrier)
    requires t < |s.threads| && s.threads[t].pc.At? && bar.generation == s.bar.generation
    requires LeaderOk(g, Eff(s.threads[0], s.bar.generation), Tally(s.sh.log), s.sh.seconds, s.sh.iterations)
    ensures LeaderOk(g, Eff(Arrived(s, t, bar).threads[0], bar.generation), Tally(s.sh.log), s.sh.seconds,
                     s.sh.iterations)
  {
  }

  lemma ArriveKeeps(c: Config, s: State, g: Stage, h: seq<Bar>, t: nat, now: real, quota: int)
    requires Inv(c, s, g, h) && t < c.threads && s.threads[t].pc.At? && s.bar.arrived + 1 < c.threads
    ensures Inv(c, Step(c, s, t, now, quota), g, h)
  {
    var bar := s.bar.(arrived := s.bar.arrived + 1);
    ArriveSets(s, t, bar);
    ArriveThreads(c, s, g, h, t, bar);
    ArriveLeads(g, s, t, bar);
    ArriveIs(c, s, t, now, quota);
  }
}
