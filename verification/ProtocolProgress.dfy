/** Every run makes progress: within a stage a sum of thread ranks falls with every step, so no schedule
    keeps the threads in a stage forever. With it, runs can be built that show what unequal bounds lead to. */
module ProtocolProgress {
  import opened NumberTheory
  import opened Protocol
  import opened ProtocolInvariant
  import opened ProtocolOpening
  import opened ProtocolTheorems

  // ----- the measure

  function Left(quota: int, i: nat): nat { if i < quota then quota - i else 0 }

  /** Steps that a thread can still take before it waits in the current generation. */
  function PcRank(th: Thread, iters: int, iterations: int): nat {
    match th.pc
    case Check | ReadIters => 5
    case InitIters | WriteIters => 4
    case CalTest | Record => 3
    case CalChase => 2 + Left(iters, th.i)
    case ExpChase => 2 + Left(iterations, th.i)
    case CalStart | CalStop | Schedule | ExpTest | ExpStart | ExpStop => 2
    case At(_) => 1
    case Wait(_, _) | Done => 0
  }

  function Rank(th: Thread, generation: nat, iters: int, iterations: int): nat {
    if th.pc.Wait? && th.pc.ticket != generation then 1 + PcRank(Leave(th), iters, iterations)
    else PcRank(th, iters, iterations)
  }

  function RankOf(s: State, t: nat): nat
    requires t < |s.threads|
  {
    Rank(s.threads[t], s.bar.generation, s.sh.iters, s.sh.iterations)
  }

  function Sum(s: State, n: nat): nat
    requires n <= |s.threads|
  {
    if n == 0 then 0 else Sum(s, n - 1) + RankOf(s, n - 1)
  }

  function Measure(s: State): nat { Sum(s, |s.threads|) }

  lemma {:induction false} SumFalls(s: State, s': State, t: nat, n: nat)
    requires n <= |s.threads| == |s'.threads| && t < |s.threads|
    requires RankOf(s', t) < RankOf(s, t)
    requires forall u: nat :: u < |s.threads| && u != t ==> RankOf(s', u) == RankOf(s, u)
    ensures if t < n then Sum(s', n) < Sum(s, n) else Sum(s', n) == Sum(s, n)
  {
    if n > 0 { SumFalls(s, s', t, n - 1); }
  }

  lemma {:induction false} SumBound(s: State, n: nat, bound: nat)
    requires n <= |s.threads| && forall u: nat :: u < |s.threads| ==> RankOf(s, u) <= bound
    ensures Sum(s, n) <= n * bound
  {
    if n > 0 {
      SumBound(s, n - 1, bound);
      assert n * bound == (n - 1) * bound + bound;
    }
  }

  // ----- each step makes progress

  lemma ActFalls(c: Config, sh: Shared, th: Thread, t: nat, now: real, quota: int)
    requires ValidConfig(c) && t < c.threads && Acting(th.pc)
    ensures var th', sh' := ActThread(c, sh, th, t, now), ActShared(sh, th, t, now, quota);
      !th'.pc.Wait? && PcRank(th', sh'.iters, sh'.iterations) < PcRank(th, sh.iters, sh.iterations)
  {
  }

  /** The counts that ranks depend on do not change under the threads that use them. */
  lemma OthersKeepRank(c: Config, s: State, g: Stage, h: seq<Bar>, t: nat, now: real, quota: int, u: nat)
    requires Inv(c, s, g, h) && t < c.threads && u < c.threads && u != t && Acting(s.threads[t].pc)
    ensures var sh' := ActShared(s.sh, s.threads[t], t, now, quota);
      Rank(s.threads[u], s.bar.generation, sh'.iters, sh'.iterations) == RankOf(s, u)
  {
    assert ThreadOk(c, g, h, s.bar.generation, s.threads[t], t, ViewOf(s, g, t));
    assert ThreadOk(c, g, h, s.bar.generation, s.threads[u], u, ViewOf(s, g, u));
  }

  lemma OwnRankFalls(c: Config, s: State, t: nat, now: real, quota: int, s': State)
    requires ValidConfig(c) && |s.threads| == c.threads && t < c.threads && Enabled(s, t) && s.bar.arrived < c.threads
    requires !Opens(c, s, t) && s' == Step(c, s, t, now, quota)
    ensures |s'.threads| == |s.threads| && s'.bar.generation == s.bar.generation && RankOf(s', t) < RankOf(s, t)
    ensures forall u: nat :: u < |s.threads| && u != t ==> s'.threads[u] == s.threads[u]
  {
    if Acting(s.threads[t].pc) { ActFalls(c, s.sh, s.threads[t], t, now, quota); }
  }

  lemma StepRanks(c: Config, s: State, g: Stage, h: seq<Bar>, t: nat, now: real, quota: int, s': State)
    requires Inv(c, s, g, h) && t < c.threads && Enabled(s, t) && !Opens(c, s, t) && s' == Step(c, s, t, now, quota)
    ensures |s'.threads| == |s.threads| && RankOf(s', t) < RankOf(s, t)
    ensures forall u: nat :: u < |s.threads| && u != t ==> RankOf(s', u) == RankOf(s, u)
  {
    OwnRankFalls(c, s, t, now, quota, s');
    if Acting(s.threads[t].pc) {
      forall u: nat | u < c.threads && u != t ensures RankOf(s', u) == RankOf(s, u) {
        OthersKeepRank(c, s, g, h, t, now, quota, u);
      }
    }
  }

  /** A step that opens no barrier brings the stage closer to its end. */
  lemma StepProgress(c: Config, s: State, g: Stage, h: seq<Bar>, t: nat, now: real, quota: int)
    requires Inv(c, s, g, h) && t < c.threads && Enabled(s, t)
    ensures var s' := Step(c, s, t, now, quota);
      if Opens(c, s, t) then s'.bar.generation == s.bar.generation + 1
      else s'.bar.generation == s.bar.generation && Measure(s') < Measure(s)
  {
    if !Opens(c, s, t) {
      var s' := Step(c, s, t, now, quota);
      OwnRankFalls(c, s, t, now, quota, s');
      StepRanks(c, s, g, h, t, now, quota, s');
      SumFalls(s, s', t, c.threads);
    }
  }

  // ----- runs

  lemma Taken(c: Config, s: State, s': State) returns (t: nat, now: real)
    requires Next(c, s, s')
    ensures ValidConfig(c) && |s.threads| == c.threads && t < c.threads && Enabled(s, t) && s.sh.clock <= now
    ensures s' == Step(c, s, t, now, Scheduled(c.seconds, s.sh.iters, s.sh.elapsed))
  {
    var u: nat :| StepOf(c, s, u, s');
    t := u;
    now :| s.sh.clock <= now && s' == Step(c, s, t, now, Scheduled(c.seconds, s.sh.iters, s.sh.elapsed));
  }

  /** Calibration is behind: the iteration count is settled, and the program ends with the last stage. */
  lemma AfterCalibration(c: Config, s: State, g: Stage, h: seq<Bar>, t: nat, now: real, quota: int)
    requires Inv(c, s, g, h) && t < c.threads && Enabled(s, t) && !g.Cal?
    ensures Step(c, s, t, now, quota).sh.iterations == s.sh.iterations
    ensures Opens(c, s, t) ==> g.Exp?
  {
    assert ThreadOk(c, g, h, s.bar.generation, s.threads[t], t, ViewOf(s, g, t));
  }

  /** One more step of a run: closer to the end of the stage, or into the next stage. */
  lemma NextProgress(c: Config, s: State, g: Stage, h: seq<Bar>, s': State) returns (g': Stage, h': seq<Bar>)
    requires Inv(c, s, g, h) && Agrees(c) && Next(c, s, s')
    ensures Inv(c, s', g', h')
    ensures if s'.bar.generation == s.bar.generation then g' == g && Measure(s') < Measure(s)
            else s'.bar.generation == s.bar.generation + 1 && !g.Over? && exists b, m :: g' == NextStage(g, b, m)
    ensures !g.Cal? ==> s'.sh.iterations == s.sh.iterations
  {
    CalibratesWhenAsked(c, s, g, h);
    var t, now := Taken(c, s, s');
    var quota := Scheduled(c.seconds, s.sh.iters, s.sh.elapsed);
    g', h' := StepKeeps(c, s, g, h, t, now, quota);
    StepProgress(c, s, g, h, t, now, quota);
    if !g.Cal? { AfterCalibration(c, s, g, h, t, now, quota); }
  }

  lemma ProgressAt(c: Config, run: seq<State>, n: nat)
    requires IsRun(c, run) && Agrees(c) && n + 1 < |run|
    ensures if run[n + 1].bar.generation == run[n].bar.generation then Measure(run[n + 1]) < Measure(run[n])
            else run[n + 1].bar.generation == run[n].bar.generation + 1
  {
    var g, h := RunInvariant(c, run[..n + 1]);
    g, h := NextProgress(c, run[n], g, h, run[n + 1]);
  }

  /** No schedule keeps the threads between two barriers for more steps than the measure says. */
  lemma StagesEnd(c: Config, run: seq<State>, i: nat, j: nat)
    requires IsRun(c, run) && Agrees(c) && i <= j < |run| && run[j].bar.generation == run[i].bar.generation
    ensures j - i <= Measure(run[i])
  {
    for n := i to j
      invariant run[n].bar.generation >= run[i].bar.generation
      invariant run[n].bar.generation == run[i].bar.generation ==> Measure(run[n]) + (n - i) <= Measure(run[i])
    {
      ProgressAt(c, run, n);
    }
  }

  // ----- experiments end

  /** Stages still to come once calibration is over. */
  function StagesLeft(c: Config, g: Stage): int {
    match g
    case Exp(e, k) => 4 * (c.experiments - e) - k + 1
    case _ => 0
  }

  function StageCost(c: Config, iterations: int): int { c.threads * (iterations + 5) + 1 }

  /** A bound on the steps that any schedule can still take. */
  function Budget(c: Config, s: State, g: Stage): int {
    StagesLeft(c, g) * StageCost(c, s.sh.iterations) + Measure(s)
  }

  lemma MeasureBound(c: Config, s: State, g: Stage, h: seq<Bar>)
    requires Inv(c, s, g, h) && !g.Cal?
    ensures Measure(s) < StageCost(c, s.sh.iterations)
  {
    forall u: nat | u < |s.threads| ensures RankOf(s, u) <= s.sh.iterations + 5 {
      RankBound(c, s, g, h, u);
    }
    RanksBound(c, s, s.sh.iterations + 5);
  }

  lemma RanksBound(c: Config, s: State, bound: int)
    requires |s.threads| == c.threads && bound >= 0 && forall u: nat :: u < |s.threads| ==> RankOf(s, u) <= bound
    ensures Measure(s) <= c.threads * bound
  {
    SumBound(s, c.threads, bound);
  }

  lemma RankBound(c: Config, s: State, g: Stage, h: seq<Bar>, u: nat)
    requires Inv(c, s, g, h) && !g.Cal? && u < c.threads
    ensures RankOf(s, u) <= s.sh.iterations + 5 && s.sh.iterations >= 0
  {
    assert ThreadOk(c, g, h, s.bar.generation, s.threads[u], u, ViewOf(s, g, u));
  }

  lemma FewerStages(c: Config, s: State, g: Stage, h: seq<Bar>, b: Bar, m: nat)
    requires Inv(c, s, g, h) && g.Exp?
    ensures 0 <= StagesLeft(c, NextStage(g, b, m)) < StagesLeft(c, g) && !NextStage(g, b, m).Cal?
  {
    assert ThreadOk(c, g, h, s.bar.generation, s.threads[0], 0, ViewOf(s, g, 0));
  }

  lemma Spend(left: int, left': int, cost: int, m: int, m': int)
    requires 0 <= left' < left && 0 <= m' < cost && m >= 0
    ensures left' * cost + m' < left * cost + m
  {
    MulMono(left' + 1, left, cost);
  }

  lemma BudgetFalls(c: Config, s: State, g: Stage, h: seq<Bar>, s': State) returns (g': Stage, h': seq<Bar>)
    requires Inv(c, s, g, h) && Agrees(c) && !g.Cal? && Next(c, s, s')
    ensures Inv(c, s', g', h') && !g'.Cal? && Budget(c, s', g') < Budget(c, s, g)
  {
    g', h' := NextProgress(c, s, g, h, s');
    if s'.bar.generation != s.bar.generation {
      var b, m :| g' == NextStage(g, b, m);
      FewerStages(c, s, g, h, b, m);
      MeasureBound(c, s', g', h');
      Spend(StagesLeft(c, g), StagesLeft(c, g'), StageCost(c, s.sh.iterations), Measure(s), Measure(s'));
    }
  }

  lemma BudgetPositive(c: Config, s: State, g: Stage, h: seq<Bar>)
    requires Inv(c, s, g, h) && !g.Cal?
    ensures Budget(c, s, g) >= 0
  {
    MeasureBound(c, s, g, h);
    assert ThreadOk(c, g, h, s.bar.generation, s.threads[0], 0, ViewOf(s, g, 0));
    MulMono(0, StagesLeft(c, g), StageCost(c, s.sh.iterations));
  }

  /** Once calibration is over, every schedule brings the run to its end within the budget. */
  lemma {:induction false} ExperimentsEnd(c: Config, run: seq<State>, i: nat, g: Stage, h: seq<Bar>)
    requires IsRun(c, run) && Agrees(c) && i < |run| && Inv(c, run[i], g, h) && !g.Cal?
    ensures |run| - 1 - i <= Budget(c, run[i], g)
    decreases |run| - i
  {
    if i == |run| - 1 {
      BudgetPositive(c, run[i], g, h);
    } else {
      var g', h' := BudgetFalls(c, run[i], g, h, run[i + 1]);
      ExperimentsEnd(c, run, i + 1, g', h');
    }
  }

  /** With a given iteration count every run is finite, whatever the schedule and the clocks. */
  lemma RunsAreFinite(c: Config, run: seq<State>)
    requires IsRun(c, run) && c.iterations > 0
    ensures |run| <= (4 * c.experiments + 2) * (c.threads * (c.iterations + 5) + 1)
  {
    InitialInv(c);
    ExperimentsEnd(c, run, 0, FirstStage(c), []);
    MeasureBound(c, Initial(c), FirstStage(c), []);
    Spend(4 * c.experiments + 2, 4 * c.experiments + 1, StageCost(c, c.iterations), 0, Measure(Initial(c)));
  }
}
