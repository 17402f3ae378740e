/** What the recorded seconds are, told from the clock readings in the log alone. */
module RecordedTimes {
  import opened Wrappers
  import opened Protocol
  import opened ProtocolOpening
  import opened ProtocolTheorems
  import opened ProtocolProgress
  import opened Windows

  /** Window w was timed between the readings at j and l. */
  predicate TimedAt(log: seq<Event>, w: Window, j: int, l: int) {
    0 <= j < l < |log| && log[j].Start? && log[j].w == w && log[l].Stop? && log[l].w == w
  }

  /** Its two clock readings are d apart. */
  ghost predicate Took(log: seq<Event>, w: Window, d: real) {
    exists j, l :: TimedAt(log, w, j, l) && d == log[l].time - log[j].time
  }

  ghost predicate WasTimed(log: seq<Event>, e: nat) { exists d :: Took(log, ExpW(e), d) }

  /** The values are the positive durations of the experiments in es, in order, and no positive duration is
      left out. */
  ghost predicate Records(log: seq<Event>, es: seq<nat>, values: seq<real>) {
    && |es| == |values|
    && (forall k :: 0 <= k < |es| ==> values[k] > 0.0 && Took(log, ExpW(es[k]), values[k]))
    && (forall k, m :: 0 <= k < m < |es| ==> es[k] < es[m])
    && (forall e, d :: Took(log, ExpW(e), d) && d > 0.0 ==> e in es)
  }

  lemma TookStays(log: seq<Event>, ev: Event, w: Window, d: real)
    requires Took(log, w, d)
    ensures Took(log + [ev], w, d)
  {
    var j, l :| TimedAt(log, w, j, l) && d == log[l].time - log[j].time;
    assert TimedAt(log + [ev], w, j, l);
  }

  lemma TookBefore(log: seq<Event>, ev: Event, e: nat, d: real)
    requires Took(log + [ev], ExpW(e), d) && !(ev.Stop? && ev.w == ExpW(e))
    ensures Took(log, ExpW(e), d)
  {
    var log' := log + [ev];
    var j, l :| TimedAt(log', ExpW(e), j, l) && d == log'[l].time - log'[j].time;
    assert TimedAt(log, ExpW(e), j, l);
  }

  /** The reading that opened the window that is still open. */
  lemma {:induction false} OpenSince(log: seq<Event>) returns (j: int)
    requires Tally(log).ok && Tally(log).open
    ensures Tally(log).last.Some? && OpenedAt(log, Tally(log).last.value, j) && log[j].time == Tally(log).since
  {
    var n := |log| - 1;
    if log[n].Start? { j := n; } else { j := OpenSince(log[..n]); }
  }

  /** An open experiment has not been timed, and those that have been came before it. */
  lemma TimedEarlier(log: seq<Event>, w: Window, e: nat, d: real)
    requires Tally(log).ok && Tally(log).open && Tally(log).last == Some(w) && Took(log, ExpW(e), d)
    ensures Earlier(ExpW(e), w)
  {
    BookUpTo(log);
    var j, l :| TimedAt(log, ExpW(e), j, l) && d == log[l].time - log[j].time;
  }

  /** The duration that a closing reading completes. */
  lemma TookNow(log: seq<Event>, e: nat, x: real, d: real)
    requires Tally(log).ok && Tally(log).open && Tally(log).last == Some(ExpW(e))
    ensures Took(log + [Stop(ExpW(e), x)], ExpW(e), d) <==> d == x - Tally(log).since
  {
    var log', n := log + [Stop(ExpW(e), x)], |log|;
    var j0 := OpenSince(log);
    assert TimedAt(log', ExpW(e), j0, n);
    if Took(log', ExpW(e), d) {
      var j, l :| TimedAt(log', ExpW(e), j, l) && d == log'[l].time - log'[j].time;
      if l < n {
        assert TimedAt(log, ExpW(e), j, l) && Took(log, ExpW(e), log[l].time - log[j].time);
        TimedEarlier(log, ExpW(e), e, log[l].time - log[j].time);
        assert false;
      }
      BookUpTo(log);
      assert j == j0;
    }
  }

  lemma KeepsRecords(log: seq<Event>, ev: Event, es: seq<nat>, values: seq<real>)
    requires Records(log, es, values) && !(ev.Stop? && ev.w.ExpW?)
    ensures Records(log + [ev], es, values)
  {
    forall k | 0 <= k < |es| ensures Took(log + [ev], ExpW(es[k]), values[k]) {
      TookStays(log, ev, ExpW(es[k]), values[k]);
    }
    forall e: nat, d | Took(log + [ev], ExpW(e), d) && d > 0.0 ensures e in es { TookBefore(log, ev, e, d); }
  }

  lemma AddsRecord(log: seq<Event>, e: nat, x: real, es: seq<nat>, values: seq<real>) returns (es': seq<nat>)
    requires Records(log, es, values) && Tally(log).ok && Tally(log).open && Tally(log).last == Some(ExpW(e))
    ensures Records(log + [Stop(ExpW(e), x)], es', values + Positive(x - Tally(log).since))
  {
    var ev, d0 := Stop(ExpW(e), x), x - Tally(log).since;
    es' := if d0 > 0.0 then es + [e] else es;
    var values' := if d0 > 0.0 then values + [d0] else values;
    TookNow(log, e, x, d0);
    forall k | 0 <= k < |es'| ensures values'[k] > 0.0 && Took(log + [ev], ExpW(es'[k]), values'[k]) {
      if k < |es| { TookStays(log, ev, ExpW(es[k]), values[k]); }
    }
    forall k | 0 <= k < |es| ensures es[k] < e { TimedEarlier(log, ExpW(e), es[k], values[k]); }
    forall f: nat, d | Took(log + [ev], ExpW(f), d) && d > 0.0 ensures f in es' {
      if f == e {
        TookNow(log, e, x, d);
        assert es'[|es|] == e;
      } else {
        TookBefore(log, ev, f, d);
        assert f in es;
      }
    }
  }

  lemma {:induction false} BookRecords(log: seq<Event>) returns (es: seq<nat>)
    requires Tally(log).ok
    ensures Records(log, es, Tally(log).deltas)
  {
    es := [];
    if log != [] {
      var n := |log| - 1;
      var before, ev := log[..n], log[n];
      assert log == before + [ev] && Tally(log) == Feed(Tally(before), ev);
      es := BookRecords(before);
      if ev.Stop? && ev.w.ExpW? {
        es := AddsRecord(before, ev.w.e, ev.time, es, Tally(before).deltas);
      } else {
        KeepsRecords(before, ev, es, Tally(before).deltas);
      }
    }
  }

  /** At the end of a run the recorded seconds are the positive differences between the two clock readings of
      an experiment, each for another experiment, in order, and every positive difference is recorded. */
  lemma SecondsRecorded(c: Config, s: State) returns (es: seq<nat>)
    requires Reachable(c, s) && Agrees(c) && |s.threads| == c.threads && s.threads[0].pc.Done?
    ensures |es| == |s.sh.seconds| && forall k, m :: 0 <= k < m < |es| ==> es[k] < es[m] < c.experiments
    ensures forall k :: 0 <= k < |es| ==>
      es[k] < c.experiments && s.sh.seconds[k] > 0.0 && Took(s.sh.log, ExpW(es[k]), s.sh.seconds[k])
    ensures forall e: nat, d :: Took(s.sh.log, ExpW(e), d) && d > 0.0 ==> e in es
    ensures forall e: nat :: e < c.experiments ==> WasTimed(s.sh.log, e)
  {
    Finished(c, s);
    var last := FinalBook(c, s);
    es := BookRecords(s.sh.log);
    BookUpTo(s.sh.log);
    forall k | 0 <= k < |es|
      ensures es[k] < c.experiments
    {
      TookWithin(s.sh.log, c.experiments, es[k], s.sh.seconds[k]);
    }
    forall e: nat | e < c.experiments ensures WasTimed(s.sh.log, e) {
      ExperimentsClosed(s.sh.log, e);
      ClosedTook(s.sh.log, e);
    }
  }

  lemma FinalBook(c: Config, s: State) returns (book: Book)
    requires Reachable(c, s) && Agrees(c) && |s.threads| == c.threads && s.threads[0].pc.Done?
    ensures book == Tally(s.sh.log) && book.ok && !book.open && Follows(book.last, ExpW(c.experiments))
  {
    var g, h := ReachableInvariant(c, s);
    assert ThreadOk(c, g, h, s.bar.generation, s.threads[0], 0, ViewOf(s, g, 0));
    book := Tally(s.sh.log);
  }

  lemma TookWithin(log: seq<Event>, n: nat, e: nat, d: real)
    requires Tally(log).ok && Follows(Tally(log).last, ExpW(n)) && Took(log, ExpW(e), d)
    ensures e < n
  {
    BookUpTo(log);
    var j, l :| TimedAt(log, ExpW(e), j, l) && d == log[l].time - log[j].time;
  }

  lemma ClosedTook(log: seq<Event>, e: nat)
    requires Tally(log).ok && Closed(log, ExpW(e))
    ensures WasTimed(log, e)
  {
    BookInWindows(log);
    var l :| 0 <= l < |log| && log[l].Stop? && log[l].w == ExpW(e);
    var j :| Encloses(log, j, l);
    assert TimedAt(log, ExpW(e), j, l);
    assert Took(log, ExpW(e), log[l].time - log[j].time);
  }

  // ----- the clock

  /** Later readings in the log are never less, and the clock has passed them all. */
  ghost predicate Rising(log: seq<Event>, clock: real) {
    && (forall i :: 0 <= i < |log| && !log[i].Bench? ==> log[i].time <= clock)
    && (forall i, j :: 0 <= i < j < |log| && !log[i].Bench? && !log[j].Bench? ==> log[i].time <= log[j].time)
  }

  lemma StepRises(c: Config, s: State, s': State)
    requires Next(c, s, s') && Rising(s.sh.log, s.sh.clock)
    ensures Rising(s'.sh.log, s'.sh.clock)
  {
    var t, now := Taken(c, s, s');
    var th, quota := s.threads[t], Scheduled(c.seconds, s.sh.iters, s.sh.elapsed);
    if s'.sh.log != s.sh.log {
      var ev := AppendsOne(c, s.sh, th, t, now, quota);
      Appended(c, s.sh, th, t, now, quota, ev);
    } else {
      SameClock(s.sh, th, t, now, quota);
    }
  }

  lemma Appended(c: Config, sh: Shared, th: Thread, t: nat, now: real, quota: int, ev: Event)
    requires ActShared(sh, th, t, now, quota).log == sh.log + [ev] && sh.clock <= now
    ensures ActShared(sh, th, t, now, quota).clock == if ev.Bench? then sh.clock else now
    ensures !ev.Bench? ==> ev.time == now
  {
    assert (sh.log + [ev])[|sh.log|] == ev;
  }

  lemma SameClock(sh: Shared, th: Thread, t: nat, now: real, quota: int)
    requires ActShared(sh, th, t, now, quota).log == sh.log
    ensures ActShared(sh, th, t, now, quota).clock == sh.clock
  {
  }

  /** The readings of a run never fall, whether or not the threads agree; so no time is negative. */
  lemma ReadingsRise(c: Config, s: State)
    requires Reachable(c, s)
    ensures Rising(s.sh.log, s.sh.clock)
    ensures forall w, d :: Took(s.sh.log, w, d) ==> d >= 0.0
  {
    var run: seq<State> :| IsRun(c, run) && run[|run| - 1] == s;
    for n := 0 to |run| - 1
      invariant Rising(run[n].sh.log, run[n].sh.clock)
    {
      StepRises(c, run[n], run[n + 1]);
    }
  }
}
