/** What a log with books in order says: windows do not overlap, and calls lie inside their own window. */
module Windows {
  import opened Protocol

  /** Calibration rounds come before experiments, both in order. */
  predicate Earlier(v: Window, w: Window) {
    match v
    case CalW(r) => w.ExpW? || r < w.r
    case ExpW(e) => w.ExpW? && e < w.e
  }

  /** Event i lies in the window that was opened at j, with nothing but calls of that window between. */
  predicate Encloses(log: seq<Event>, j: int, i: int) {
    && 0 <= j < i < |log| && log[j].Start? && log[j].w == log[i].w
    && forall k :: j < k < i ==> log[k].Bench? && log[k].w == log[i].w
  }

  ghost predicate InWindows(log: seq<Event>) {
    forall i :: 0 <= i < |log| && !log[i].Start? ==> exists j :: Encloses(log, j, i)
  }

  /** Windows are opened in order, so none is opened twice. */
  predicate Ordered(log: seq<Event>) {
    forall i, j :: 0 <= i < j < |log| && log[j].Start? ==> Earlier(log[i].w, log[j].w)
  }

  /** The events so far compared with the last window. */
  predicate UpTo(log: seq<Event>, book: Book) {
    forall i :: 0 <= i < |log| ==>
      && book.last.Some?
      && (Earlier(log[i].w, book.last.value) || (log[i].w == book.last.value && (log[i].Stop? ==> !book.open)))
  }

  /** The open window was opened at j and only its calls followed. */
  predicate OpenedAt(log: seq<Event>, w: Window, j: int) {
    && 0 <= j < |log| && log[j].Start? && log[j].w == w
    && forall k :: j < k < |log| ==> log[k].Bench? && log[k].w == w
  }

  lemma {:induction false} BookUpTo(log: seq<Event>)
    requires Tally(log).ok
    ensures UpTo(log, Tally(log)) && Ordered(log)
  {
    if log != [] { BookUpTo(log[..|log| - 1]); }
  }

  lemma {:induction false} BookOpenedAt(log: seq<Event>) returns (j: int)
    requires Tally(log).ok && Tally(log).open
    ensures Tally(log).last.Some? && OpenedAt(log, Tally(log).last.value, j)
  {
    var n := |log| - 1;
    if log[n].Start? { j := n; } else { j := BookOpenedAt(log[..n]); }
  }

  lemma {:induction false} BookInWindows(log: seq<Event>)
    requires Tally(log).ok
    ensures InWindows(log)
  {
    if log == [] { return; }
    var n := |log| - 1;
    var before := log[..n];
    BookInWindows(before);
    forall i | 0 <= i < |log| && !log[i].Start? ensures exists j :: Encloses(log, j, i) {
      var j: int;
      if i < n {
        assert before[i] == log[i];
        j :| Encloses(before, j, i);
      } else {
        j := BookOpenedAt(before);
      }
      assert Encloses(log, j, i);
    }
  }

  /** Between the clock readings of a window lie all of its calls and nothing else. */
  ghost predicate Timed(log: seq<Event>) {
    && (forall i :: 0 <= i < |log| && log[i].Bench? ==> exists j :: 0 <= j < i && log[j].Start? && log[j].w == log[i].w)
    && (forall i, j :: 0 <= i < |log| && 0 <= j < |log| && log[i].Bench? && log[j].Start? && log[i].w == log[j].w ==>
          j < i)
    && (forall i, l :: 0 <= i < |log| && 0 <= l < |log| && log[i].Bench? && log[l].Stop? && log[i].w == log[l].w ==>
          i < l)
    && (forall j, k, l :: 0 <= j < k < l < |log| && log[j].Start? && log[l].Stop? && log[j].w == log[l].w ==>
          log[k].Bench? && log[k].w == log[l].w)
  }

  /** The opening of a window is the one that encloses its other events. */
  lemma OneStart(log: seq<Event>, j: int, i: int, j': int)
    requires Ordered(log) && Encloses(log, j, i) && 0 <= j' < |log| && log[j'].Start? && log[j'].w == log[i].w
    ensures j' == j
  {
  }

  lemma CallBeforeStop(log: seq<Event>, i: int, l: int)
    requires Ordered(log) && InWindows(log) && 0 <= i < |log| && 0 <= l < |log|
    requires log[i].Bench? && log[l].Stop? && log[i].w == log[l].w
    ensures i < l
  {
    var j :| Encloses(log, j, i);
    var j' :| Encloses(log, j', l);
    OneStart(log, j, i, j');
  }

  lemma BooksTimed(log: seq<Event>)
    requires Tally(log).ok
    ensures Timed(log)
  {
    BookUpTo(log);
    BookInWindows(log);
    forall i, j | 0 <= i < |log| && 0 <= j < |log| && log[i].Bench? && log[j].Start? && log[i].w == log[j].w
      ensures j < i
    {
      var j' :| Encloses(log, j', i);
      OneStart(log, j', i, j);
    }
    forall i, l | 0 <= i < |log| && 0 <= l < |log| && log[i].Bench? && log[l].Stop? && log[i].w == log[l].w
      ensures i < l
    {
      CallBeforeStop(log, i, l);
    }
    forall j, k, l | 0 <= j < k < l < |log| && log[j].Start? && log[l].Stop? && log[j].w == log[l].w
      ensures log[k].Bench? && log[k].w == log[l].w
    {
      var j' :| Encloses(log, j', l);
      OneStart(log, j', l, j);
    }
    forall i | 0 <= i < |log| && log[i].Bench? ensures exists j :: 0 <= j < i && log[j].Start? && log[j].w == log[i].w {
      var j :| Encloses(log, j, i);
      assert log[j].Start?;
    }
  }

  // ----- calls per window

  /** Calls of thread t in window w. */
  function Calls(log: seq<Event>, w: Window, t: nat): nat {
    if log == [] then 0
    else Calls(log[..|log| - 1], w, t) + (if log[|log| - 1] == Bench(t, w) then 1 else 0)
  }

  lemma CallsOne(log: seq<Event>, ev: Event, w: Window, t: nat)
    ensures Calls(log + [ev], w, t) == Calls(log, w, t) + (if ev == Bench(t, w) then 1 else 0)
  {
    assert (log + [ev])[..|log|] == log;
  }

  lemma {:induction false} NoCalls(log: seq<Event>, w: Window, t: nat)
    requires forall i :: 0 <= i < |log| ==> log[i].w != w
    ensures Calls(log, w, t) == 0
  {
    if log != [] { NoCalls(log[..|log| - 1], w, t); }
  }

  /** The calls since the last opening are all the calls of that window. */
  lemma {:induction false} CountIsCalls(log: seq<Event>, t: nat)
    requires Tally(log).ok && Tally(log).last.Some?
    ensures Count(log, t) == Calls(log, Tally(log).last.value, t)
  {
    var n := |log| - 1;
    var before := log[..n];
    if log[n].Start? {
      BookUpTo(before);
      NoCalls(before, log[n].w, t);
    } else {
      CountIsCalls(before, t);
    }
  }

  /** The log says that window w was closed. */
  ghost predicate Closed(log: seq<Event>, w: Window) {
    exists l :: 0 <= l < |log| && log[l].Stop? && log[l].w == w
  }

  lemma ClosedStays(log: seq<Event>, ev: Event, w: Window)
    ensures Closed(log + [ev], w) <==> Closed(log, w) || (ev.Stop? && ev.w == w)
  {
    var log' := log + [ev];
    if Closed(log, w) {
      var l :| 0 <= l < |log| && log[l].Stop? && log[l].w == w;
      assert log'[l] == log[l];
    }
    if ev.Stop? && ev.w == w { assert log'[|log|].Stop?; }
  }

  /** Before the last window lie only closed ones, and the last one is closed unless it is open. */
  lemma {:induction false} ExperimentsClosed(log: seq<Event>, e: nat)
    requires Tally(log).ok && Tally(log).last.Some? && Tally(log).last.value.ExpW?
    requires e < Tally(log).last.value.e || (e == Tally(log).last.value.e && !Tally(log).open)
    ensures Closed(log, ExpW(e))
  {
    var n := |log| - 1;
    var before := log[..n];
    assert log == before + [log[n]];
    ClosedStays(before, log[n], ExpW(e));
    if !(log[n].Stop? && log[n].w == ExpW(e)) { ExperimentsClosed(before, e); }
  }

  // ----- the time of the last calibration round

  function CalElapsed(log: seq<Event>): real {
    if log == [] then 0.0
    else
      var n := |log| - 1;
      if log[n].Stop? && log[n].w.CalW? then log[n].time - Tally(log[..n]).since else CalElapsed(log[..n])
  }

  lemma CalElapsedOne(log: seq<Event>, ev: Event)
    ensures CalElapsed(log + [ev]) == if ev.Stop? && ev.w.CalW? then ev.time - Tally(log).since else CalElapsed(log)
  {
    assert (log + [ev])[..|log|] == log;
  }

  /** Books that are in order were in order before. */
  lemma {:induction false} BookPrefix(log: seq<Event>, n: nat)
    requires Tally(log).ok && n <= |log|
    ensures Tally(log[..n]).ok
  {
    if n < |log| {
      var before := log[..|log| - 1];
      BookPrefix(before, n);
      assert before[..n] == log[..n];
    } else {
      assert log[..n] == log;
    }
  }

  lemma StartAfterStop(before: seq<Event>, ev: Event)
    requires Tally(before).ok && Feed(Tally(before), ev).ok && ev.Start? && ev.w.CalW? && ev.w.r > 0
    ensures before != [] && before[|before| - 1].Stop? && before[|before| - 1].w == CalW(ev.w.r - 1)
  {
    assert before != [];
    var n := |before| - 1;
    assert Tally(before) == Feed(Tally(before[..n]), before[n]);
  }

  /** A new round is opened right after the round before it was closed. */
  lemma OpensAfterStop(log: seq<Event>, j: nat)
    requires Tally(log).ok && j < |log| && log[j].Start? && log[j].w.CalW? && log[j].w.r > 0
    ensures j > 0 && log[j - 1].Stop? && log[j - 1].w == CalW(log[j].w.r - 1)
  {
    BookPrefix(log, j + 1);
    BookPrefix(log, j);
    var before := log[..j];
    assert log[..j + 1] == before + [log[j]];
    TallyOne(before, log[j]);
    StartAfterStop(before, log[j]);
  }
}
