/** Threads share one `random()`. Every draw is made in a critical section that first selects the thread's
    own state, so what a thread draws does not depend on the schedule. */
module RandomDraws {
  import opened Wrappers
  import opened NumberTheory
  import opened Geometry
  import opened ChainInit

  /** A critical section: a factor and an offset are drawn, or the operation count is published. */
  datatype Job = Draw | Publish(count: int)

  /** Outside is about to lock; Leaving is about to unlock. */
  datatype PC = Outside | Entered | Chosen | Once | Leaving

  datatype Thread = Thread(pc: PC, job: nat, drawn: seq<nat>)

  /** `current` is the state that `random()` uses; `taken` counts the values taken from each state. */
  datatype State = State(threads: seq<Thread>, owner: Option<nat>, current: nat, taken: seq<nat>, published: int)

  /** What all runs share: the critical sections of each thread and the values of each random state. */
  datatype Setup = Setup(jobs: seq<seq<Job>>, stream: (nat, nat) -> nat)

  function Initial(p: Setup, current: nat): State {
    State(seq(|p.jobs|, _ => Thread(Outside, 0, [])), None, current, seq(|p.jobs|, _ => 0), 0)
  }

  predicate Shaped(p: Setup, s: State) { |s.threads| == |s.taken| == |p.jobs| }

  /** The lock must be free to enter, and a state must have been selected to draw from. */
  predicate Enabled(p: Setup, s: State, t: nat) {
    && Shaped(p, s) && t < |p.jobs| && s.threads[t].job < |p.jobs[t]|
    && (s.threads[t].pc.Outside? ==> s.owner.None?)
    && ((s.threads[t].pc.Chosen? || s.threads[t].pc.Once?) ==> s.current < |s.taken|)
  }

  /** The next value of the selected state, for thread t. */
  function Take(p: Setup, s: State, t: nat, pc: PC): State
    requires Shaped(p, s) && t < |p.jobs| && s.current < |s.taken|
  {
    var th, i := s.threads[t], s.current;
    s.(threads := s.threads[t := Thread(pc, th.job, th.drawn + [p.stream(i, s.taken[i])])],
       taken := s.taken[i := s.taken[i] + 1])
  }

  function Step(p: Setup, s: State, t: nat): State
    requires Enabled(p, s, t)
  {
    var th := s.threads[t];
    match th.pc
    case Outside => s.(threads := s.threads[t := th.(pc := Entered)], owner := Some(t))
    case Entered =>
      (match p.jobs[t][th.job]
       case Draw => s.(threads := s.threads[t := th.(pc := Chosen)], current := t)
       case Publish(n) => s.(threads := s.threads[t := th.(pc := Leaving)], published := n))
    case Chosen => Take(p, s, t, Once)
    case Once => Take(p, s, t, Leaving)
    case Leaving => s.(threads := s.threads[t := th.(pc := Outside, job := th.job + 1)], owner := None)
  }

  /** A schedule is a sequence of thread numbers; a thread that cannot step is passed over. */
  function Run(p: Setup, s: State, schedule: seq<nat>): State {
    if schedule == [] then s
    else
      var n := |schedule| - 1;
      var s' := Run(p, s, schedule[..n]);
      if Enabled(p, s', schedule[n]) then Step(p, s', schedule[n]) else s'
  }

  // ----- invariant

  /** The first n values of state t. */
  function Own(p: Setup, t: nat, n: nat): (r: seq<nat>)
    ensures |r| == n && forall k :: 0 <= k < n ==> r[k] == p.stream(t, k)
  {
    if n == 0 then [] else Own(p, t, n - 1) + [p.stream(t, n - 1)]
  }

  /** Draw sections among the first n jobs. */
  function Draws(jobs: seq<Job>, n: nat): nat
    requires n <= |jobs|
  {
    if n == 0 then 0 else Draws(jobs, n - 1) + (if jobs[n - 1].Draw? then 1 else 0)
  }

  /** Values drawn in the section that a thread is in. */
  function Inside(pc: PC, job: Job): nat {
    if pc.Once? then 1 else if pc.Leaving? && job.Draw? then 2 else 0
  }

  ghost predicate ThreadOk(p: Setup, s: State, t: nat)
    requires Shaped(p, s) && t < |p.jobs|
  {
    var th := s.threads[t];
    && th.job <= |p.jobs[t]|
    && (th.pc.Outside? || (th.job < |p.jobs[t]| && s.owner == Some(t)))
    && (th.pc.Chosen? || th.pc.Once? ==> s.current == t && p.jobs[t][th.job].Draw?)
    && s.taken[t] == |th.drawn| && th.drawn == Own(p, t, |th.drawn|)
    && |th.drawn| == 2 * Draws(p.jobs[t], th.job) + (if th.pc.Outside? then 0 else Inside(th.pc, p.jobs[t][th.job]))
  }

  ghost predicate Inv(p: Setup, s: State) {
    Shaped(p, s) && forall t :: 0 <= t < |p.jobs| ==> ThreadOk(p, s, t)
  }

  lemma TakeKeeps(p: Setup, s: State, t: nat)
    requires Shaped(p, s) && t < |p.jobs| && ThreadOk(p, s, t) && Enabled(p, s, t)
    requires s.threads[t].pc.Chosen? || s.threads[t].pc.Once?
    ensures Shaped(p, Step(p, s, t)) && ThreadOk(p, Step(p, s, t), t)
  {
    assert Own(p, t, s.taken[t] + 1) == Own(p, t, s.taken[t]) + [p.stream(t, s.taken[t])];
  }

  lemma OwnStepKeeps(p: Setup, s: State, t: nat)
    requires Shaped(p, s) && t < |p.jobs| && ThreadOk(p, s, t) && Enabled(p, s, t)
    ensures Shaped(p, Step(p, s, t)) && ThreadOk(p, Step(p, s, t), t)
  {
    if s.threads[t].pc.Chosen? || s.threads[t].pc.Once? { TakeKeeps(p, s, t); }
  }

  /** The lock keeps the step of a thread out of the others' critical sections. */
  lemma OtherStepKeeps(p: Setup, s: State, t: nat, u: nat)
    requires Inv(p, s) && Enabled(p, s, t) && u < |p.jobs| && u != t
    ensures Shaped(p, Step(p, s, t)) && ThreadOk(p, Step(p, s, t), u)
  {
    assert ThreadOk(p, s, t) && ThreadOk(p, s, u);
  }

  lemma StepKeeps(p: Setup, s: State, t: nat)
    requires Inv(p, s) && Enabled(p, s, t)
    ensures Inv(p, Step(p, s, t))
  {
    OwnStepKeeps(p, s, t);
    forall u | 0 <= u < |p.jobs| ensures ThreadOk(p, Step(p, s, t), u) {
      if u != t { OtherStepKeeps(p, s, t, u); }
    }
  }

  lemma {:induction false} RunKeeps(p: Setup, current: nat, schedule: seq<nat>)
    ensures Inv(p, Run(p, Initial(p, current), schedule))
  {
    if schedule != [] {
      var n := |schedule| - 1;
      RunKeeps(p, current, schedule[..n]);
      var s := Run(p, Initial(p, current), schedule[..n]);
      if Enabled(p, s, schedule[n]) { StepKeeps(p, s, schedule[n]); }
    }
  }

  // ----- main results

  /** Under every schedule a thread has drawn the first values of its own state, and after its first n
      critical sections exactly two for each draw section among them. */
  lemma DrawsOwnState(p: Setup, current: nat, schedule: seq<nat>, t: nat)
    requires t < |p.jobs|
    ensures var s := Run(p, Initial(p, current), schedule);
      && Shaped(p, s) && s.threads[t].job <= |p.jobs[t]|
      && s.threads[t].drawn == Own(p, t, |s.threads[t].drawn|)
      && (s.threads[t].pc.Outside? ==> |s.threads[t].drawn| == 2 * Draws(p.jobs[t], s.threads[t].job))
  {
    RunKeeps(p, current, schedule);
    assert ThreadOk(p, Run(p, Initial(p, current), schedule), t);
  }

  /** The critical sections of one chain: draw sections, and one that publishes the count. `random_mem_init`
      draws once for the page order and once for each page; the strided functions do not draw. */
  function ChainJobs(draws: nat, count: int): (jobs: seq<Job>)
    ensures |jobs| == draws + 1
  {
    seq(draws, _ => Draw) + [Publish(count)]
  }

  function ThreadJobs(draws: nat, count: int, chains: nat): (jobs: seq<Job>)
    ensures |jobs| == chains * (draws + 1)
  {
    if chains == 0 then []
    else
      assert chains * (draws + 1) == (chains - 1) * (draws + 1) + (draws + 1);
      ThreadJobs(draws, count, chains - 1) + ChainJobs(draws, count)
  }

  lemma {:induction false} DrawsAppend(a: seq<Job>, b: seq<Job>, n: nat)
    requires n <= |b|
    ensures Draws(a + b, |a| + n) == Draws(a + b, |a|) + Draws(b, n)
    decreases n
  {
    if n > 0 { DrawsAppend(a, b, n - 1); }
  }

  lemma {:induction false} DrawsPrefix(a: seq<Job>, b: seq<Job>, n: nat)
    requires n <= |a|
    ensures Draws(a + b, n) == Draws(a, n)
    decreases n
  {
    if n > 0 { DrawsPrefix(a, b, n - 1); }
  }

  lemma {:induction false} DrawsGrow(jobs: seq<Job>, a: nat, b: nat)
    requires a <= b <= |jobs|
    ensures Draws(jobs, a) <= Draws(jobs, b)
    decreases b
  {
    if a < b { DrawsGrow(jobs, a, b - 1); }
  }

  lemma {:induction false} ChainDraws(draws: nat, count: int, n: nat)
    requires n <= draws + 1
    ensures Draws(ChainJobs(draws, count), n) == if n <= draws then n else draws
    decreases n
  {
    if n > 0 { ChainDraws(draws, count, n - 1); }
  }

  lemma {:induction false} ThreadDraws(draws: nat, count: int, chains: nat, c: nat)
    requires c <= chains
    ensures c * (draws + 1) <= |ThreadJobs(draws, count, chains)|
    ensures Draws(ThreadJobs(draws, count, chains), c * (draws + 1)) == c * draws
    decreases chains
  {
    MulMono(c, chains, draws + 1);
    if c == 0 { return; }
    var before, last := ThreadJobs(draws, count, chains - 1), ChainJobs(draws, count);
    assert chains * (draws + 1) == (chains - 1) * (draws + 1) + (draws + 1);
    if c < chains {
      ThreadDraws(draws, count, chains - 1, c);
      DrawsPrefix(before, last, c * (draws + 1));
    } else {
      ThreadDraws(draws, count, chains - 1, chains - 1);
      DrawsPrefix(before, last, |before|);
      DrawsAppend(before, last, draws + 1);
      ChainDraws(draws, count, draws + 1);
      assert chains * draws == (chains - 1) * draws + draws;
    }
  }

  lemma {:induction false} ThreadPublishes(draws: nat, count: int, chains: nat)
    ensures forall j :: 0 <= j < |ThreadJobs(draws, count, chains)| && ThreadJobs(draws, count, chains)[j].Publish? ==>
      ThreadJobs(draws, count, chains)[j].count == count
    ensures chains > 0 ==>
      var jobs := ThreadJobs(draws, count, chains); jobs != [] && jobs[|jobs| - 1] == Publish(count)
    decreases chains
  {
    if chains > 0 { ThreadPublishes(draws, count, chains - 1); }
  }

  /** n values of state t from the given position on. */
  function Segment(p: Setup, t: nat, from: nat, n: nat): (r: seq<nat>)
    ensures |r| == n && forall k :: 0 <= k < n ==> r[k] == p.stream(t, from + k)
  {
    if n == 0 then [] else Segment(p, t, from, n - 1) + [p.stream(t, from + n - 1)]
  }

  /** The values that thread t drew for chain c, if it has finished that chain. */
  function DrawnFor(s: State, t: nat, g: Geometry, c: nat): (r: seq<nat>)
    requires t < |s.threads| && WellFormed(g)
  {
    var d := 2 + 2 * g.pagesPerChain;
    if c * d + d <= |s.threads[t].drawn| then s.threads[t].drawn[c * d..c * d + d] else []
  }

  /** The ring of chain c of thread t is the same under every schedule: it follows from the values of the
      thread's own state alone. */
  lemma RingFromOwnState(p: Setup, current: nat, schedule: seq<nat>, t: nat, g: Geometry, chains: nat, c: nat)
    requires t < |p.jobs| && WellFormed(g) && c < chains
    requires p.jobs[t] == ThreadJobs(g.pagesPerChain + 1, g.linesPerChain, chains)
    ensures var s := Run(p, Initial(p, current), schedule);
      var own := Segment(p, t, c * (2 + 2 * g.pagesPerChain), 2 + 2 * g.pagesPerChain);
      && Shaped(p, s) && EnoughDraws(g, own)
      && (s.threads[t].job >= (c + 1) * (g.pagesPerChain + 2) ==> DrawnFor(s, t, g, c) == own)
  {
    var s := Run(p, Initial(p, current), schedule);
    RunKeeps(p, current, schedule);
    assert ThreadOk(p, s, t);
    if s.threads[t].job >= (c + 1) * (g.pagesPerChain + 2) {
      EnoughDrawn(p, s, t, g, chains, c);
      SliceIsSegment(p, t, s.threads[t].drawn, c * (2 + 2 * g.pagesPerChain), 2 + 2 * g.pagesPerChain);
    }
  }

  lemma EnoughDrawn(p: Setup, s: State, t: nat, g: Geometry, chains: nat, c: nat)
    requires Shaped(p, s) && t < |p.jobs| && ThreadOk(p, s, t) && c < chains
    requires p.jobs[t] == ThreadJobs(g.pagesPerChain + 1, g.linesPerChain, chains)
    requires s.threads[t].job >= (c + 1) * (g.pagesPerChain + 2)
    ensures c * (2 + 2 * g.pagesPerChain) + (2 + 2 * g.pagesPerChain) <= |s.threads[t].drawn|
  {
    ThreadDraws(g.pagesPerChain + 1, g.linesPerChain, chains, c + 1);
    DrawsGrow(p.jobs[t], (c + 1) * (g.pagesPerChain + 2), s.threads[t].job);
    TwicePerSection(c, g.pagesPerChain);
  }

  lemma TwicePerSection(c: nat, pages: nat)
    ensures c * (2 + 2 * pages) + (2 + 2 * pages) == 2 * ((c + 1) * (pages + 1))
  {
  }

  lemma SliceIsSegment(p: Setup, t: nat, drawn: seq<nat>, from: nat, n: nat)
    requires drawn == Own(p, t, |drawn|) && from + n <= |drawn|
    ensures drawn[from..from + n] == Segment(p, t, from, n)
  {
  }

  // ----- the published count

  /** All threads and chains publish the same count. */
  predicate SameCount(p: Setup, n: int) {
    forall t, j :: 0 <= t < |p.jobs| && 0 <= j < |p.jobs[t]| && p.jobs[t][j].Publish? ==> p.jobs[t][j].count == n
  }

  /** Thread t has published. */
  ghost predicate HasPublished(p: Setup, s: State, t: nat)
    requires Shaped(p, s) && t < |p.jobs|
  {
    exists j :: 0 <= j < |p.jobs[t]| && p.jobs[t][j].Publish? &&
      (j < s.threads[t].job || (j == s.threads[t].job && s.threads[t].pc.Leaving?))
  }

  ghost predicate CountOk(p: Setup, s: State, n: int)
    requires Shaped(p, s)
  {
    forall t: nat :: t < |p.jobs| && HasPublished(p, s, t) ==> s.published == n
  }

  lemma CountStep(p: Setup, s: State, t: nat, n: int)
    requires SameCount(p, n) && Inv(p, s) && Enabled(p, s, t) && CountOk(p, s, n)
    ensures Inv(p, Step(p, s, t)) && CountOk(p, Step(p, s, t), n)
  {
    StepKeeps(p, s, t);
    var s' := Step(p, s, t);
    forall u: nat | u < |p.jobs| && HasPublished(p, s', u) ensures s'.published == n {
      var j :| 0 <= j < |p.jobs[u]| && p.jobs[u][j].Publish? &&
        (j < s'.threads[u].job || (j == s'.threads[u].job && s'.threads[u].pc.Leaving?));
      PublishedBefore(p, s, t, u, j);
    }
  }

  /** Who has published after a step had published before it, or is the one who stepped and wrote. */
  lemma PublishedBefore(p: Setup, s: State, t: nat, u: nat, j: nat)
    requires Inv(p, s) && Enabled(p, s, t) && u < |p.jobs| && j < |p.jobs[u]| && p.jobs[u][j].Publish?
    requires var s' := Step(p, s, t);
      Shaped(p, s') && (j < s'.threads[u].job || (j == s'.threads[u].job && s'.threads[u].pc.Leaving?))
    ensures (HasPublished(p, s, u) && (Step(p, s, t).published == s.published || Publishes(p, s, t)))
            || (u == t && Publishes(p, s, t))
  {
    assert ThreadOk(p, s, t);
    assert ThreadOk(p, s, u);
    if j < s.threads[u].job || (j == s.threads[u].job && s.threads[u].pc.Leaving?) { assert HasPublished(p, s, u); }
  }

  predicate Publishes(p: Setup, s: State, t: nat)
    requires Enabled(p, s, t)
  {
    s.threads[t].pc.Entered? && p.jobs[t][s.threads[t].job].Publish?
  }

  /** Once any thread has published, the count has the one value that all publish, under every schedule. */
  lemma {:induction false} OneCount(p: Setup, current: nat, schedule: seq<nat>, n: int)
    requires SameCount(p, n)
    ensures Inv(p, Run(p, Initial(p, current), schedule)) && CountOk(p, Run(p, Initial(p, current), schedule), n)
  {
    if schedule != [] {
      var k := |schedule| - 1;
      OneCount(p, current, schedule[..k], n);
      var s := Run(p, Initial(p, current), schedule[..k]);
      if Enabled(p, s, schedule[k]) { CountStep(p, s, schedule[k], n); }
    }
  }

  /** When all threads have initialised their chains, the published count is that of every chain. */
  lemma CountAfterJoins(p: Setup, current: nat, schedule: seq<nat>, draws: nat, count: int, chains: nat)
    requires |p.jobs| > 0 && chains > 0
    requires forall t :: 0 <= t < |p.jobs| ==> p.jobs[t] == ThreadJobs(draws, count, chains)
    ensures var s := Run(p, Initial(p, current), schedule);
      && Shaped(p, s)
      && ((forall t :: 0 <= t < |p.jobs| ==> s.threads[t].job == |p.jobs[t]|) ==> s.published == count)
  {
    ThreadPublishes(draws, count, chains);
    OneCount(p, current, schedule, count);
    var s := Run(p, Initial(p, current), schedule);
    if forall t :: 0 <= t < |p.jobs| ==> s.threads[t].job == |p.jobs[t]| {
      var j := |p.jobs[0]| - 1;
      assert p.jobs[0][j].Publish? && j < s.threads[0].job;
      assert HasPublished(p, s, 0);
    }
  }

  ghost predicate AllJoined(p: Setup, s: State)
    requires Shaped(p, s)
  {
    forall t :: 0 <= t < |p.jobs| ==> s.threads[t].job == |p.jobs[t]|
  }

  /** Random access: the count is lines_per_chain, which is the number of appended links of every chain of
      every thread, whatever that chain drew. */
  lemma CountAfterRandom(p: Setup, current: nat, schedule: seq<nat>, g: Geometry, chains: nat, t: nat, c: nat)
    requires WellFormed(g) && t < |p.jobs| && c < chains
    requires forall u :: 0 <= u < |p.jobs| ==> p.jobs[u] == ThreadJobs(g.pagesPerChain + 1, g.linesPerChain, chains)
    ensures var s := Run(p, Initial(p, current), schedule);
      Shaped(p, s) && (AllJoined(p, s) ==>
        && EnoughDraws(g, DrawnFor(s, t, g, c)) && s.published == g.linesPerChain
        && s.published == |RandomOrder(g, PlanOf(PRIME_TABLE, g, DrawnFor(s, t, g, c)))|)
  {
    CountAfterJoins(p, current, schedule, g.pagesPerChain + 1, g.linesPerChain, chains);
    RingFromOwnState(p, current, schedule, t, g, chains, c);
    MulMono(c + 1, chains, g.pagesPerChain + 2);
  }

  /** Strided access: the count is ceil(lines/stride), the number of appended links in either direction. */
  lemma CountAfterStrided(p: Setup, current: nat, schedule: seq<nat>, g: Geometry, chains: nat, stride: nat)
    requires WellFormed(g) && stride > 0 && |p.jobs| > 0 && chains > 0
    requires forall u :: 0 <= u < |p.jobs| ==> p.jobs[u] == ThreadJobs(0, CeilDiv(g.linesPerChain, stride), chains)
    ensures var s := Run(p, Initial(p, current), schedule);
      Shaped(p, s) && (AllJoined(p, s) ==> s.published == |ForwardOrder(g, stride)| == |ReverseOrder(g, stride)|)
  {
    CountAfterJoins(p, current, schedule, 0, CeilDiv(g.linesPerChain, stride), chains);
  }
}
