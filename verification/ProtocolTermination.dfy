/** Runs with calibration are finite as well, if calls take time: an explicit bound on their length. */
module ProtocolTermination {
  import opened Wrappers
  import opened NumberTheory
  import opened Protocol
  import opened ProtocolOpening
  import opened ProtocolTheorems
  import opened ProtocolProgress
  import opened ProtocolCalibration
  import opened Windows

  // ----- what is true of a run is true of its beginnings

  lemma PrefixReachable(c: Config, run: seq<State>, n: nat)
    requires IsRun(c, run) && n < |run|
    ensures Reachable(c, run[n])
  {
    var start := run[..n + 1];
    assert IsRun(c, start) && start[|start| - 1] == run[n];
  }

  lemma LogGrows(c: Config, s: State, s': State)
    requires Next(c, s, s')
    ensures s.sh.log <= s'.sh.log && (s.sh.iterations >= 0 ==> s'.sh.iterations >= 0)
  {
    var t, now := Taken(c, s, s');
  }

  lemma {:induction false} LogPrefix(c: Config, run: seq<State>, i: nat, j: nat)
    requires IsRun(c, run) && i <= j < |run|
    ensures run[i].sh.log <= run[j].sh.log
    decreases j
  {
    if i < j {
      LogPrefix(c, run, i, j - 1);
      assert Next(c, run[j - 1], run[j - 1 + 1]);
      LogGrows(c, run[j - 1], run[j]);
    }
  }

  lemma {:induction false} CountStays(c: Config, run: seq<State>, n: nat)
    requires IsRun(c, run) && n < |run|
    ensures run[n].sh.iterations >= 0
    decreases n
  {
    if n > 0 {
      CountStays(c, run, n - 1);
      assert Next(c, run[n - 1], run[n - 1 + 1]);
      LogGrows(c, run[n - 1], run[n]);
    }
  }

  lemma {:induction false} CallsPrefix(a: seq<Event>, b: seq<Event>, w: Window, t: nat)
    requires a <= b
    ensures Calls(a, w, t) <= Calls(b, w, t)
    decreases |b|
  {
    if |a| < |b| { CallsPrefix(a, b[..|b| - 1], w, t); } else { assert a == b; }
  }

  lemma PacedPrefix(a: seq<Event>, b: seq<Event>, d: real)
    requires a <= b && Paced(b, d) && d >= 0.0
    ensures Paced(a, d)
  {
    forall j | 0 <= j < |a| && a[j].Stop? && a[j].w.CalW?
      ensures CalElapsed(a[..j + 1]) >= Times(d, Calls(a, a[j].w, 0))
    {
      assert a[j] == b[j] && a[..j + 1] == b[..j + 1];
      CallsPrefix(a, b, a[j].w, 0);
      TimesMono(d, Calls(a, a[j].w, 0), Calls(b, a[j].w, 0));
    }
  }

  // ----- rounds

  /** Calls take at least d, and 2^R of them exceed the bound. */
  ghost predicate Soon(c: Config, log: seq<Event>, d: real, R: nat)
    requires ValidConfig(c)
  {
    d > 0.0 && Paced(log, d) && Times(d, Pow2(R)) > Bound(c, 0)
  }

  lemma {:induction false} BookStarted(log: seq<Event>) returns (j: nat)
    requires Tally(log).ok && Tally(log).last.Some?
    ensures j < |log| && log[j].Start? && Some(log[j].w) == Tally(log).last
  {
    var n := |log| - 1;
    if log[n].Start? { j := n; } else { j := BookStarted(log[..n]); }
  }

  lemma LastWithin(c: Config, s: State, d: real, R: nat, q: nat)
    requires Reachable(c, s) && Agrees(c) && Soon(c, s.sh.log, d, R)
    requires Tally(s.sh.log).ok && Tally(s.sh.log).last == Some(CalW(q))
    ensures q <= R
  {
    var j := BookStarted(s.sh.log);
    CalibrationEnds(c, s, d, R);
  }

  /** A round that thread 0 is about to open was wanted. */
  lemma NextWithin(c: Config, s: State, d: real, R: nat, r: nat)
    requires Reachable(c, s) && Agrees(c) && Soon(c, s.sh.log, d, R) && ClockOk(s.sh) && s.sh.elapsed <= Bound(c, 0)
    requires Tally(s.sh.log).ok && !Tally(s.sh.log).open && Tally(s.sh.log).last == Some(CalW(r))
    ensures r + 1 <= R
  {
    var log := s.sh.log;
    var n := ClosedLast(log, r);
    assert log[..n + 1] == log;
    RoundCalls(c, s, r);
    TimesMono(d, Pow2(r), Calls(log, CalW(r), 0));
    if r >= R {
      PowMono(R, r);
      TimesMono(d, Pow2(R), Pow2(r));
      assert false;
    }
  }

  lemma ClosedLast(log: seq<Event>, r: nat) returns (n: nat)
    requires Tally(log).ok && !Tally(log).open && Tally(log).last == Some(CalW(r))
    ensures n + 1 == |log| && log[n].Stop? && log[n].w == CalW(r) && Closed(log, CalW(r))
  {
    n := |log| - 1;
    assert Tally(log) == Feed(Tally(log[..n]), log[n]);
  }

  /** The books of a stage, as thread 0 keeps them. */
  ghost predicate BooksSay(c: Config, sh: Shared, g: Stage)
    requires ValidConfig(c) && g.Cal?
  {
    var book := Tally(sh.log);
    && book.ok && g.k <= 3 && ClockOk(sh)
    && (g.k == 0 && g.r > 0 ==> book.last == Some(CalW(g.r - 1)))
    && (g.k > 0 && g.r > 0 && book.last != Some(CalW(g.r)) ==>
          book.last == Some(CalW(g.r - 1)) && !book.open && sh.elapsed <= Bound(c, 0))
  }

  lemma StageBooks(c: Config, s: State, g: Stage, h: seq<Bar>)
    requires Timely(c, s, g, h) && g.Cal?
    ensures BooksSay(c, s.sh, g)
  {
    assert ThreadOk(c, g, h, s.bar.generation, s.threads[0], 0, ViewOf(s, g, 0));
  }

  lemma RoundWithin(c: Config, s: State, g: Stage, d: real, R: nat)
    requires Reachable(c, s) && Agrees(c) && g.Cal? && BooksSay(c, s.sh, g) && Soon(c, s.sh.log, d, R)
    ensures g.k <= 3 && g.r <= if g.k == 0 then R + 1 else R
  {
    if g.r > 0 {
      if g.k == 0 {
        LastWithin(c, s, d, R, g.r - 1);
      } else if Tally(s.sh.log).last == Some(CalW(g.r)) {
        LastWithin(c, s, d, R, g.r);
      } else {
        NextWithin(c, s, d, R, g.r - 1);
      }
    }
  }

  // ----- the length of calibration

  function CalStages(c: Config, g: Stage, R: nat): int
    requires g.Cal?
  {
    4 * (R + 1 - g.r) - g.k + 4 * c.experiments + 2
  }

  /** More than any schedule can step between two barriers of calibration. */
  function CalCost(c: Config, R: nat): int { c.threads * (Pow2(R * c.threads) + 5) + 1 }

  lemma CalIters(c: Config, s: State, g: Stage, h: seq<Bar>, R: nat) returns (most: int)
    requires Inv(c, s, g, h) && g.Cal? && (g.k > 0 ==> g.r <= R)
    ensures most == Pow2(R * c.threads) && most >= 1 && (g.k > 0 ==> s.sh.iters <= most)
  {
    most := Pow2(R * c.threads);
    if g.k > 0 {
      MulMono(g.r, R, c.threads);
      PowMono(g.m, R * c.threads);
    }
  }

  lemma CalRank(c: Config, s: State, g: Stage, h: seq<Bar>, most: int, u: nat)
    requires Inv(c, s, g, h) && g.Cal? && u < c.threads && most >= 1 && (g.k > 0 ==> s.sh.iters <= most)
    ensures RankOf(s, u) <= most + 5
  {
    assert ThreadOk(c, g, h, s.bar.generation, s.threads[u], u, ViewOf(s, g, u));
  }

  lemma CalMeasure(c: Config, s: State, g: Stage, h: seq<Bar>, R: nat)
    requires Inv(c, s, g, h) && g.Cal? && (g.k > 0 ==> g.r <= R)
    ensures Measure(s) < CalCost(c, R)
  {
    var most := CalIters(c, s, g, h, R);
    forall u: nat | u < |s.threads| ensures RankOf(s, u) <= most + 5 { CalRank(c, s, g, h, most, u); }
    RanksBound(c, s, most + 5);
  }

  /** The iteration count does not change after calibration. */
  lemma {:induction false} CountSettles(c: Config, run: seq<State>, i: nat, g: Stage, h: seq<Bar>)
    requires IsRun(c, run) && Agrees(c) && i < |run| && Inv(c, run[i], g, h) && !g.Cal?
    ensures run[|run| - 1].sh.iterations == run[i].sh.iterations
    decreases |run| - i
  {
    if i < |run| - 1 {
      var g', h' := BudgetFalls(c, run[i], g, h, run[i + 1]);
      var g2, h2 := NextProgress(c, run[i], g, h, run[i + 1]);
      CountSettles(c, run, i + 1, g', h');
    }
  }

  function ExpMax(c: Config, iterations: int): int { (4 * c.experiments + 2) * StageCost(c, iterations) }

  lemma BudgetAtStart(c: Config, s: State, g: Stage, h: seq<Bar>)
    requires Inv(c, s, g, h) && g == Exp(0, 0)
    ensures Budget(c, s, g) < ExpMax(c, s.sh.iterations)
  {
    MeasureBound(c, s, g, h);
    Spend(4 * c.experiments + 2, 4 * c.experiments + 1, StageCost(c, s.sh.iterations), 0, Measure(s));
  }

  /** From the beginning of the experiments on. */
  lemma ExpLength(c: Config, run: seq<State>, i: nat, g: Stage, h: seq<Bar>, max: int)
    requires IsRun(c, run) && Agrees(c) && i < |run| && Inv(c, run[i], g, h) && g == Exp(0, 0)
    requires max == ExpMax(c, run[|run| - 1].sh.iterations)
    ensures |run| - i <= max
  {
    ExperimentsEnd(c, run, i, g, h);
    CountSettles(c, run, i, g, h);
    BudgetAtStart(c, run[i], g, h);
  }

  lemma ExpMaxPositive(c: Config, iterations: int)
    requires iterations >= 0
    ensures ExpMax(c, iterations) >= 0
  {
    MulMono(0, c.threads, iterations + 5);
    MulMono(0, 4 * c.experiments + 2, StageCost(c, iterations));
  }

  lemma NextCal(c: Config, g: Stage, g': Stage, R: nat)
    requires g.Cal? && g.k <= 3 && exists b, m :: g' == NextStage(g, b, m)
    ensures g' == Exp(0, 0) || (g'.Cal? && CalStages(c, g', R) == CalStages(c, g, R) - 1)
  {
  }

  /** A bound on the steps still to come, `max` of them after calibration. */
  function CalTotal(c: Config, s: State, g: Stage, R: nat, max: int): int
    requires g.Cal?
  {
    CalStages(c, g, R) * CalCost(c, R) + Measure(s) + max
  }

  /** A state of the run is in a stage that is still early enough. */
  ghost predicate Early(c: Config, s: State, g: Stage, h: seq<Bar>, R: nat) {
    && Timely(c, s, g, h) && g.Cal? && g.k <= 3
    && CalStages(c, g, R) > 0 && Measure(s) < CalCost(c, R)
  }

  lemma StageWithin(c: Config, run: seq<State>, i: nat, g: Stage, h: seq<Bar>, d: real, R: nat)
    requires IsRun(c, run) && Agrees(c) && i < |run| && Timely(c, run[i], g, h) && g.Cal?
    requires Soon(c, run[|run| - 1].sh.log, d, R)
    ensures Early(c, run[i], g, h, R)
  {
    PrefixReachable(c, run, i);
    LogPrefix(c, run, i, |run| - 1);
    PacedPrefix(run[i].sh.log, run[|run| - 1].sh.log, d);
    EarlyEnough(c, run[i], g, h, d, R);
  }

  lemma EarlyEnough(c: Config, s: State, g: Stage, h: seq<Bar>, d: real, R: nat)
    requires Reachable(c, s) && Agrees(c) && Timely(c, s, g, h) && g.Cal? && Soon(c, s.sh.log, d, R)
    ensures Early(c, s, g, h, R)
  {
    StageBooks(c, s, g, h);
    RoundWithin(c, s, g, d, R);
    CalMeasure(c, s, g, h, R);
  }

  lemma TotalPositive(c: Config, s: State, g: Stage, h: seq<Bar>, R: nat, max: int)
    requires Early(c, s, g, h, R) && max >= 0
    ensures CalTotal(c, s, g, R, max) >= max
  {
    MulMono(0, CalStages(c, g, R), CalCost(c, R));
  }

  /** The next stage is nearer to the end. */
  lemma TotalFalls(c: Config, s: State, g: Stage, h: seq<Bar>, s': State, g': Stage, h': seq<Bar>, R: nat, max: int)
    requires Early(c, s, g, h, R) && Early(c, s', g', h', R)
    requires (g' == g && Measure(s') < Measure(s)) || CalStages(c, g', R) == CalStages(c, g, R) - 1
    ensures CalTotal(c, s', g', R, max) < CalTotal(c, s, g, R, max)
  {
    if g' != g { Spend(CalStages(c, g, R), CalStages(c, g', R), CalCost(c, R), Measure(s), Measure(s')); }
  }

  lemma CalStep(c: Config, s: State, g: Stage, h: seq<Bar>, s': State, R: nat) returns (g': Stage, h': seq<Bar>)
    requires Early(c, s, g, h, R) && Agrees(c) && Next(c, s, s')
    ensures Timely(c, s', g', h')
    ensures g' == Exp(0, 0) ||
      (g'.Cal? && ((g' == g && Measure(s') < Measure(s)) || CalStages(c, g', R) == CalStages(c, g, R) - 1))
  {
    g', h' := TimelySteps(c, s, g, h, s');
    if s'.bar.generation != s.bar.generation { NextCal(c, g, g', R); }
  }

  lemma {:induction false} CalLength(c: Config, run: seq<State>, i: nat, g: Stage, h: seq<Bar>, d: real, R: nat,
                                     max: int)
    requires IsRun(c, run) && Agrees(c) && i < |run| && Early(c, run[i], g, h, R)
    requires Soon(c, run[|run| - 1].sh.log, d, R) && max == ExpMax(c, run[|run| - 1].sh.iterations) >= 0
    ensures |run| - 1 - i <= CalTotal(c, run[i], g, R, max)
    decreases |run| - i
  {
    TotalPositive(c, run[i], g, h, R, max);
    if i < |run| - 1 {
      var g', h' := CalStep(c, run[i], g, h, run[i + 1], R);
      if g'.Cal? {
        StageWithin(c, run, i + 1, g', h', d, R);
        TotalFalls(c, run[i], g, h, run[i + 1], g', h', R, max);
        CalLength(c, run, i + 1, g', h', d, R, max);
      } else {
        ExpLength(c, run, i + 1, g', h', max);
      }
    }
  }

  /** With calibration: if every call takes at least d and 2^R calls exceed the bound, a run is no longer than
      this, whatever the schedule; `iterations` is what thread 0 has scheduled by its end. */
  lemma CalibratedRunsAreFinite(c: Config, run: seq<State>, d: real, R: nat)
    requires IsRun(c, run) && Agrees(c) && c.iterations == 0 && Soon(c, run[|run| - 1].sh.log, d, R)
    ensures |run| <= (4 * R + 4 * c.experiments + 7) * (c.threads * (Pow2(R * c.threads) + 5) + 1)
                     + (4 * c.experiments + 2) * (c.threads * (run[|run| - 1].sh.iterations + 5) + 1)
  {
    TimelyStart(c);
    CountStays(c, run, |run| - 1);
    ExpMaxPositive(c, run[|run| - 1].sh.iterations);
    StageWithin(c, run, 0, FirstStage(c), [], d, R);
    CalLength(c, run, 0, FirstStage(c), [], d, R, ExpMax(c, run[|run| - 1].sh.iterations));
    var left := 4 * R + 4 * c.experiments + 6;
    assert CalStages(c, FirstStage(c), R) == left;
    Spend(left + 1, left, CalCost(c, R), 0, Measure(run[0]));
  }
}
