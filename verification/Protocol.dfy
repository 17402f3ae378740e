/** `Run::run` from the first barrier on, as an interleaved step system: T threads with program counters,
    the shared statics, and a barrier that counts arrivals. */
module Protocol {
  import opened Wrappers

  // ----- configuration and state

  /** `resolution` holds what each thread measures for itself; `iterations` is 0 when calibration is wanted. */
  datatype Config = Config(threads: nat, resolution: seq<real>, seconds: real, iterations: nat, experiments: nat)

  predicate ValidConfig(c: Config) { c.threads > 0 && |c.resolution| == c.threads }

  function MaxReal(x: real, y: real): real { if x < y then y else x }

  /** The calibration bound of a thread. */
  function Bound(c: Config, t: nat): real
    requires ValidConfig(c) && t < c.threads
  {
    MaxReal(0.2, 10.0 * c.resolution[t])
  }

  /** The ten barrier calls, in program order. */
  datatype Bar = CalEnter | CalStarted | CalChased | CalStopped | CalDone
               | ExpEnter | ExpStarted | ExpChased | ExpStopped | Final

  /** At(b) is about to call barrier b; Wait(b, ticket) has arrived in generation `ticket`. */
  datatype PC = Check | InitIters | CalTest | CalStart | CalChase | CalStop | ReadIters | WriteIters | Schedule
              | ExpTest | ExpStart | ExpChase | ExpStop | Record
              | At(b: Bar) | Wait(b: Bar, ticket: nat) | Done

  /** Locals of a thread. `round` counts finished calibration rounds and `calls` the barrier calls made;
      both are histories that no step reads. */
  datatype Thread = Thread(pc: PC, round: nat, e: nat, i: nat, tmp: int, start: real, stop: real, calls: seq<Bar>)

  /** A timed window: a calibration round or an experiment. */
  datatype Window = CalW(r: nat) | ExpW(e: nat)

  datatype Event = Start(w: Window, time: real) | Stop(w: Window, time: real) | Bench(t: nat, w: Window)

  /** The statics and `exp->iterations`; `clock` is the last reading and `log` the history of clock
      readings around windows and of `bench` calls. */
  datatype Shared = Shared(istart: real, elapsed: real, iters: int, iterations: int, seconds: seq<real>,
                           clock: real, log: seq<Event>)

  /** pthread barrier: arrivals of the current generation. */
  datatype Barrier = Barrier(arrived: nat, generation: nat)

  datatype State = State(threads: seq<Thread>, bar: Barrier, sh: Shared)

  function Initial(c: Config): State
    requires ValidConfig(c)
  {
    State(seq(c.threads, _ => Thread(Check, 0, 0, 0, 0, 0.0, 0.0, [])), Barrier(0, 0),
          Shared(0.0, 0.0, 1, c.iterations, [], 0.0, []))
  }

  // ----- steps

  /** Iterations for a number of seconds, when `iters` of them took `elapsed`. */
  function BySeconds(seconds: real, iters: int, elapsed: real): int
    requires elapsed > 0.0
  {
    MaxReal(1.0, 0.9999 + 0.5 * seconds * iters as real / elapsed).Floor
  }

  /** The iteration count that thread 0 schedules. */
  function Scheduled(seconds: real, iters: int, elapsed: real): (n: int)
    ensures n >= 1
  {
    if elapsed <= 0.0 then 1
    else if 0.0 < seconds then BySeconds(seconds, iters, elapsed)
    else MaxReal(1.0, 0.9999 + iters as real / elapsed).Floor
  }

  /** The last arrival opens the barrier and starts a new generation. */
  function Arrive(b: Barrier, limit: nat): Barrier {
    if b.arrived + 1 >= limit then Barrier(0, b.generation + 1) else b.(arrived := b.arrived + 1)
  }

  /** Where a thread continues when it leaves the barrier it waits in. */
  function Leave(th: Thread): Thread
    requires th.pc.Wait?
  {
    match th.pc.b
    case CalEnter => th.(pc := CalStart)
    case CalStarted => th.(pc := CalChase, i := 0)
    case CalChased => th.(pc := CalStop)
    case CalStopped => th.(pc := ReadIters, round := th.round + 1)
    case CalDone => th.(pc := ExpTest)
    case ExpEnter => th.(pc := ExpStart)
    case ExpStarted => th.(pc := ExpChase, i := 0)
    case ExpChased => th.(pc := ExpStop)
    case ExpStopped => th.(pc := Record)
    case Final => th.(pc := Done)
  }

  /** Steps between barriers: what they do to the thread. */
  function ActThread(c: Config, sh: Shared, th: Thread, t: nat, now: real): Thread
    requires ValidConfig(c) && t < c.threads
  {
    match th.pc
    case Check => th.(pc := if sh.iterations == 0 then InitIters else ExpTest)
    case InitIters => th.(pc := CalTest)
    case CalTest => th.(pc := if sh.elapsed <= Bound(c, t) then At(CalEnter) else Schedule)
    case CalStart => th.(pc := At(CalStarted))
    case CalChase => if th.i < sh.iters then th.(i := th.i + 1) else th.(pc := At(CalChased))
    case CalStop => th.(pc := At(CalStopped))
    case ReadIters => th.(pc := WriteIters, tmp := sh.iters)
    case WriteIters => th.(pc := CalTest)
    case Schedule => th.(pc := At(CalDone))
    case ExpTest => th.(pc := if th.e < c.experiments then At(ExpEnter) else At(Final))
    case ExpStart => th.(pc := At(ExpStarted), start := if t == 0 then now else 0.0)
    case ExpChase => if th.i < sh.iterations then th.(i := th.i + 1) else th.(pc := At(ExpChased))
    case ExpStop => th.(pc := At(ExpStopped), stop := if t == 0 then now else 0.0)
    case Record => th.(pc := ExpTest, e := th.e + 1)
    case _ => th
  }

  /** Steps between barriers: what they do to the shared state. Only thread 0 reads the clock; `quota` is
      the iteration count it computes when it schedules. */
  function ActShared(sh: Shared, th: Thread, t: nat, now: real, quota: int): Shared {
    match th.pc
    case InitIters => sh.(iters := 1)
    case CalStart =>
      if t == 0 then sh.(istart := now, clock := now, log := sh.log + [Start(CalW(th.round), now)]) else sh
    case CalChase => if th.i < sh.iters then sh.(log := sh.log + [Bench(t, CalW(th.round))]) else sh
    case CalStop =>
      if t == 0 then sh.(elapsed := now - sh.istart, clock := now, log := sh.log + [Stop(CalW(th.round), now)]) else sh
    case WriteIters => sh.(iters := 2 * th.tmp)
    case Schedule => if t == 0 then sh.(iterations := quota) else sh
    case ExpStart => if t == 0 then sh.(clock := now, log := sh.log + [Start(ExpW(th.e), now)]) else sh
    case ExpChase => if th.i < sh.iterations then sh.(log := sh.log + [Bench(t, ExpW(th.e))]) else sh
    case ExpStop => if t == 0 then sh.(clock := now, log := sh.log + [Stop(ExpW(th.e), now)]) else sh
    case Record => if t == 0 then sh.(seconds := sh.seconds + Positive(th.stop - th.start)) else sh
    case _ => sh
  }

  /** An elapsed time is recorded only if it is positive. */
  function Positive(delta: real): seq<real> { if 0.0 < delta then [delta] else [] }

  predicate Enabled(s: State, t: nat)
    requires t < |s.threads|
  {
    var pc := s.threads[t].pc;
    !pc.Done? && (pc.Wait? ==> pc.ticket != s.bar.generation)
  }

  /** One step of thread t; `now` is used if the step reads the clock, `quota` if it schedules. */
  function Step(c: Config, s: State, t: nat, now: real, quota: int): State
    requires ValidConfig(c) && |s.threads| == c.threads && t < c.threads && Enabled(s, t)
  {
    var th := s.threads[t];
    match th.pc
    case At(b) => s.(threads := s.threads[t := th.(pc := Wait(b, s.bar.generation), calls := th.calls + [b])],
                     bar := Arrive(s.bar, c.threads))
    case Wait(_, _) => s.(threads := s.threads[t := Leave(th)])
    case _ => s.(threads := s.threads[t := ActThread(c, s.sh, th, t, now)], sh := ActShared(s.sh, th, t, now, quota))
  }

  /** Thread t can take a step from s to s'. The clock never runs backwards. */
  ghost predicate StepOf(c: Config, s: State, t: nat, s': State) {
    && ValidConfig(c) && |s.threads| == c.threads && t < c.threads && Enabled(s, t)
    && exists now :: s.sh.clock <= now && s' == Step(c, s, t, now, Scheduled(c.seconds, s.sh.iters, s.sh.elapsed))
  }

  ghost predicate Next(c: Config, s: State, s': State) {
    exists t :: StepOf(c, s, t, s')
  }

  /** A run: states connected by steps, from the initial state. */
  ghost predicate IsRun(c: Config, run: seq<State>) {
    && ValidConfig(c) && run != [] && run[0] == Initial(c)
    && forall k :: 0 <= k < |run| - 1 ==> Next(c, run[k], run[k + 1])
  }

  ghost predicate Reachable(c: Config, s: State) {
    exists run :: IsRun(c, run) && run[|run| - 1] == s
  }

  // ----- books kept on the log

  /** May window w be opened after window `last`? */
  predicate Follows(last: Option<Window>, w: Window) {
    match w
    case CalW(r) => last == if r == 0 then None else Some(CalW(r - 1))
    case ExpW(e) => if e == 0 then last.None? || last.value.CalW? else last == Some(ExpW(e - 1))
  }

  /** `ok`: windows open and close in order, and every `bench` call so far was in its own open window. */
  datatype Book = Book(ok: bool, open: bool, last: Option<Window>, since: real, deltas: seq<real>)

  function Feed(b: Book, ev: Event): Book {
    match ev
    case Start(w, x) => Book(b.ok && !b.open && Follows(b.last, w), true, Some(w), x, b.deltas)
    case Bench(_, w) => b.(ok := b.ok && b.open && b.last == Some(w))
    case Stop(w, x) =>
      Book(b.ok && b.open && b.last == Some(w), false, b.last, b.since,
           if w.ExpW? then b.deltas + Positive(x - b.since) else b.deltas)
  }

  function Tally(log: seq<Event>): Book {
    if log == [] then Book(true, false, None, 0.0, []) else Feed(Tally(log[..|log| - 1]), log[|log| - 1])
  }

  /** Calls of thread t since the last window was opened. */
  function Count(log: seq<Event>, t: nat): nat {
    if log == [] then 0
    else
      var n := |log| - 1;
      match log[n]
      case Start(_, _) => 0
      case Bench(u, _) => Count(log[..n], t) + (if u == t then 1 else 0)
      case Stop(_, _) => Count(log[..n], t)
  }

  lemma TallyOne(log: seq<Event>, ev: Event)
    ensures Tally(log + [ev]) == Feed(Tally(log), ev)
  {
    assert (log + [ev])[..|log|] == log;
  }

  lemma CountOne(log: seq<Event>, ev: Event, t: nat)
    ensures Count(log + [ev], t) ==
      match ev
      case Start(_, _) => 0
      case Bench(u, _) => Count(log, t) + (if u == t then 1 else 0)
      case Stop(_, _) => Count(log, t)
  {
    assert (log + [ev])[..|log|] == log;
  }

  function Pow2(n: nat): (p: int)
    ensures p >= 1
  {
    if n == 0 then 1 else 2 * Pow2(n - 1)
  }

  // ----- the invariant

  /** Between which barriers the threads are. In Cal(r, k, m): round r, k barriers of it passed, 2^m the
      count of the round (for k = 0, of the round before). */
  datatype Stage = Cal(r: nat, k: nat, m: nat) | Exp(e: nat, k: nat) | Over

  /** A thread that waits in an opened barrier counts as having left it. */
  function Eff(th: Thread, generation: nat): Thread {
    if th.pc.Wait? && th.pc.ticket != generation then Leave(th) else th
  }

  predicate AtBar(th: Thread, b: Bar) {
    th.pc == At(b) || (th.pc.Wait? && th.pc.b == b)
  }

  /** Program counters that a stage allows. */
  predicate InStage(c: Config, th: Thread, g: Stage) {
    match g
    case Cal(r, k, _) =>
      && c.iterations == 0 && th.round == r && th.e == 0
      && (if k == 0 then
            || (r == 0 && (th.pc.Check? || th.pc.InitIters?)) || th.pc.CalTest? || AtBar(th, CalEnter)
            || (r > 0 && (th.pc.ReadIters? || th.pc.WriteIters? || th.pc.Schedule? || AtBar(th, CalDone)))
          else if k == 1 then th.pc.CalStart? || AtBar(th, CalStarted)
          else if k == 2 then th.pc.CalChase? || AtBar(th, CalChased)
          else k == 3 && (th.pc.CalStop? || AtBar(th, CalStopped)))
    case Exp(e, k) =>
      if k == 0 then
        e <= c.experiments &&
        ((th.pc.Check? && e == th.e == 0 && c.iterations > 0)
        || (th.pc.Record? && th.e + 1 == e)
        || (th.e == e && (th.pc.ExpTest? || AtBar(th, ExpEnter) || AtBar(th, Final))))
      else
        && th.e == e < c.experiments
        && (if k == 1 then th.pc.ExpStart? || AtBar(th, ExpStarted)
            else if k == 2 then th.pc.ExpChase? || AtBar(th, ExpChased)
            else k == 3 && (th.pc.ExpStop? || AtBar(th, ExpStopped)))
    case Over => th.pc.Done? && th.e == c.experiments
  }

  /** x is a power of two between 2^lo and 2^hi. */
  ghost predicate PowBetween(x: int, lo: nat, hi: nat) {
    exists y :: lo <= y <= hi && x == Pow2(y)
  }

  /** The shared values that matter to a thread in a stage; the others are left out so that steps which
      change them do not matter either. */
  datatype View = View(elapsed: real, quota: int, count: nat, written: nat)

  /** Threads that have finished the doubling of `iters` in this round. */
  ghost function Written(s: State): set<nat> {
    set u: nat | u < |s.threads| && Doubled(Eff(s.threads[u], s.bar.generation))
  }

  predicate Doubled(th: Thread) { !th.pc.ReadIters? && !th.pc.WriteIters? }

  function ViewIn(g: Stage, sh: Shared, u: nat, written: nat): View {
    match g
    case Cal(r, k, m) =>
      if k == 0 then View(sh.elapsed, 0, if r > 0 then Count(sh.log, u) else 0, written)
      else View(0.0, sh.iters, if k == 1 then 0 else Count(sh.log, u), 0)
    case Exp(e, k) => View(0.0, sh.iterations, if k <= 1 then 0 else Count(sh.log, u), 0)
    case Over => View(0.0, 0, 0, 0)
  }

  ghost function ViewOf(s: State, g: Stage, u: nat): View {
    ViewIn(g, s.sh, u, |Written(s)|)
  }

  /** What a thread knows about the shared values. */
  ghost predicate Facts(c: Config, g: Stage, th: Thread, u: nat, v: View)
    requires ValidConfig(c) && u < c.threads
  {
    match g
    case Cal(r, k, m) =>
      if k == 0 then
        && (AtBar(th, CalEnter) ==> v.elapsed <= Bound(c, u))
        && (th.pc.Schedule? || AtBar(th, CalDone) ==> v.elapsed > Bound(c, u))
        && (th.pc.WriteIters? ==> PowBetween(th.tmp, m, m + v.written))
        && (r > 0 ==> v.count == Pow2(m))
      else if k == 2 then th.i <= v.quota && v.count == if th.pc.CalChase? then th.i else v.quota
      else if k == 3 then v.count == v.quota
      else true
    case Exp(e, k) =>
      if k == 0 then (AtBar(th, ExpEnter) ==> e < c.experiments) && (AtBar(th, Final) ==> e >= c.experiments)
      else if k == 2 then th.i <= v.quota && v.count == if th.pc.ExpChase? then th.i else v.quota
      else if k == 3 then v.count == v.quota
      else true
    case Over => true
  }

  ghost predicate ThreadOk(c: Config, g: Stage, h: seq<Bar>, generation: nat, th: Thread, u: nat, v: View)
    requires ValidConfig(c) && u < c.threads
  {
    && (th.pc.Wait? ==> th.pc.ticket <= generation)
    && th.calls == (if th.pc.Wait? && th.pc.ticket == generation then h + [th.pc.b] else h)
    && InStage(c, Eff(th, generation), g) && Facts(c, g, Eff(th, generation), u, v)
  }

  /** What thread 0 knows about the books, the recorded times and the scheduled iterations. */
  predicate LeaderOk(g: Stage, th: Thread, book: Book, seconds: seq<real>, iterations: int) {
    match g
    case Cal(r, k, _) =>
      && book.deltas == seconds
      && (if k == 0 || (k == 1 && th.pc.CalStart?) then !book.open && Follows(book.last, CalW(r))
          else book.last == Some(CalW(r)) && (book.open <==> k <= 2 || th.pc.CalStop?))
      && (AtBar(th, CalDone) ==> iterations >= 1)
    case Exp(e, k) =>
      && (if k == 0 || (k == 1 && th.pc.ExpStart?) then !book.open && Follows(book.last, ExpW(e))
          else book.last == Some(ExpW(e)) && (book.open <==> k <= 2 || th.pc.ExpStop?))
      && (book.open ==> book.since == th.start)
      && book.deltas == seconds + (if th.pc.Record? || AtBar(th, ExpStopped) then Positive(th.stop - th.start) else [])
    case Over => !book.open && Follows(book.last, ExpW(th.e)) && book.deltas == seconds
  }

  ghost predicate SharedOk(c: Config, g: Stage, sh: Shared, written: nat) {
    && Tally(sh.log).ok
    && match g
       case Cal(r, k, m) =>
         if k == 0 then
           if r == 0 then m == 0 && sh.iters == 1 && sh.elapsed == 0.0 && sh.iterations == 0
           else r - 1 <= m <= (r - 1) * c.threads && PowBetween(sh.iters, if written > 0 then m + 1 else m, m + written)
         else sh.iters == Pow2(m) && r <= m <= r * c.threads && (k == 1 ==> CountsClear(sh.log))
       case Exp(e, k) => sh.iterations >= 1 && (k == 1 ==> CountsClear(sh.log))
       case Over => sh.iterations >= 1
  }

  /** A window that was just opened has seen no call. */
  ghost predicate CountsClear(log: seq<Event>) {
    Tally(log).open ==> forall u :: Count(log, u) == 0
  }

  /** Threads that wait in the current generation. */
  ghost function Waiting(s: State): set<nat> {
    set u: nat | u < |s.threads| && s.threads[u].pc.Wait? && s.threads[u].pc.ticket == s.bar.generation
  }

  ghost predicate ThreadsOk(c: Config, s: State, g: Stage, h: seq<Bar>)
    requires ValidConfig(c)
  {
    && |s.threads| == c.threads
    && forall u :: 0 <= u < c.threads ==> ThreadOk(c, g, h, s.bar.generation, s.threads[u], u, ViewOf(s, g, u))
  }

  ghost predicate Inv(c: Config, s: State, g: Stage, h: seq<Bar>) {
    && ValidConfig(c) && ThreadsOk(c, s, g, h) && |h| == s.bar.generation
    && |Waiting(s)| == s.bar.arrived < c.threads
    && SharedOk(c, g, s.sh, |Written(s)|)
    && LeaderOk(g, Eff(s.threads[0], s.bar.generation), Tally(s.sh.log), s.sh.seconds, s.sh.iterations)
  }

  function FirstStage(c: Config): Stage { if c.iterations == 0 then Cal(0, 0, 0) else Exp(0, 0) }

  lemma InitialInv(c: Config)
    requires ValidConfig(c)
    ensures Inv(c, Initial(c), FirstStage(c), [])
  {
    assert Waiting(Initial(c)) == {};
  }
}
