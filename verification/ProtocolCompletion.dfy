/** Runs can be completed: from every state after calibration, and so from the start when the threads agree. */
module ProtocolCompletion {
  import opened Protocol
  import opened ProtocolOpening
  import opened ProtocolTheorems
  import opened ProtocolProgress
  import opened ProtocolAgreement

  ghost predicate AllDone(c: Config, s: State) {
    |s.threads| == c.threads && forall t: nat :: t < c.threads ==> s.threads[t].pc.Done?
  }

  /** Some thread can step on. */
  lemma StepOn(c: Config, s: State, g: Stage, h: seq<Bar>) returns (s': State)
    requires Reachable(c, s) && Inv(c, s, g, h) && !AllDone(c, s)
    ensures Reachable(c, s') && Next(c, s, s')
  {
    StuckIsOver(c, s, g, h);
    var t: nat :| t < c.threads && Enabled(s, t);
    s' := Extend(c, s, t, s.sh.clock);
    assert StepOf(c, s, t, s');
  }

  /** After calibration a run can always be completed. */
  lemma {:induction false} Complete(c: Config, s: State, g: Stage, h: seq<Bar>) returns (s': State)
    requires Reachable(c, s) && Inv(c, s, g, h) && Agrees(c) && !g.Cal?
    ensures Reachable(c, s') && AllDone(c, s')
    decreases Budget(c, s, g)
  {
    if AllDone(c, s) {
      s' := s;
    } else {
      var s1 := StepOn(c, s, g, h);
      BudgetPositive(c, s, g, h);
      var g1, h1 := BudgetFalls(c, s, g, h, s1);
      s' := Complete(c, s1, g1, h1);
    }
  }

  /** In a round that nobody wants, the barrier that opens is the one behind calibration. */
  lemma LeavesCalibration(c: Config, s: State, g: Stage, h: seq<Bar>, t: nat)
    requires Inv(c, s, g, h) && g.Cal? && g.k == 0 && t < c.threads && s.threads[t].pc.At? && s.sh.elapsed > Bound(c, t)
    ensures s.threads[t].pc.b == CalDone
  {
    assert ThreadOk(c, g, h, s.bar.generation, s.threads[t], t, ViewOf(s, g, t));
  }

  /** One step towards the end of calibration. */
  lemma StepOut(c: Config, s: State, g: Stage, h: seq<Bar>) returns (s': State, g': Stage, h': seq<Bar>)
    requires Reachable(c, s) && Inv(c, s, g, h) && Agrees(c) && g.Cal? && g.k == 0 && g.r > 0
    requires forall t: nat :: t < c.threads ==> s.sh.elapsed > Bound(c, t)
    ensures Reachable(c, s') && Inv(c, s', g', h')
    ensures !g'.Cal? || (g' == g && Measure(s') < Measure(s) && s'.sh.elapsed == s.sh.elapsed)
  {
    StuckIsOver(c, s, g, h);
    CalibratesWhenAsked(c, s, g, h);
    var t: nat :| t < c.threads && Enabled(s, t);
    var quota := Scheduled(c.seconds, s.sh.iters, s.sh.elapsed);
    s' := Extend(c, s, t, s.sh.clock);
    g', h' := StepKeeps(c, s, g, h, t, s.sh.clock, quota);
    StepProgress(c, s, g, h, t, s.sh.clock, quota);
    ElapsedStays(c, s, g, h, t, s.sh.clock, quota);
    if Opens(c, s, t) { LeavesCalibration(c, s, g, h, t); }
  }

  /** Once the elapsed time exceeds the bound, calibration can be left. */
  lemma {:induction false} LeaveCalibration(c: Config, s: State, g: Stage, h: seq<Bar>)
    returns (s': State, g': Stage, h': seq<Bar>)
    requires Reachable(c, s) && Inv(c, s, g, h) && Agrees(c) && g.Cal? && g.k == 0 && g.r > 0
    requires forall t: nat :: t < c.threads ==> s.sh.elapsed > Bound(c, t)
    ensures Reachable(c, s') && Inv(c, s', g', h') && !g'.Cal?
    decreases Measure(s)
  {
    s', g', h' := StepOut(c, s, g, h);
    if g'.Cal? { s', g', h' := LeaveCalibration(c, s', g', h'); }
  }

  /** Every configuration whose threads agree has a run in which all threads finish. */
  lemma RunsCanEnd(c: Config) returns (s: State)
    requires Agrees(c)
    ensures Reachable(c, s) && AllDone(c, s)
  {
    var g, h;
    if c.iterations > 0 {
      InitialInv(c);
      assert IsRun(c, [Initial(c)]) && [Initial(c)][0] == Initial(c);
      s, g, h := Initial(c), FirstStage(c), [];
    } else {
      s, g, h := AnyElapsed(c, Bound(c, 0) + 1.0);
      s, g, h := LeaveCalibration(c, s, g, h);
    }
    s := Complete(c, s, g, h);
  }
}
