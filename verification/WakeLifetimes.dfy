/** Over whole runs: what becomes of every wake and every watcher, and how many stops that allows. */
module WakeLifetimes {
  import opened Wrappers
  import opened IdleTimer
  import opened WakeMachine
  import WakeOwnership
  import WakeStarts
  import WakeStops

  predicate IsToAwake(e: Event) {
    e.ToAwake?
  }

  predicate IsGivenUp(e: Event) {
    e.ToAsleep? && e.cause == NeverReady
  }

  predicate IsRetired(e: Event) {
    e.Retired?
  }

  predicate IsStopIssued(e: Event) {
    e.StopIssued?
  }

  /** A watcher, or the wake about to spawn it, that has not issued its stop. */
  predicate IsWatching(pc: Pc) {
    pc.Spawning? || pc.Polling? || pc.Counting? || pc.Stopping?
  }

  // ----- What every step keeps -----

  /** Every transition to waking has led to awake, was given up, or is still at work. */
  predicate WakesAccountedFor(s: Sys) {
    WakeOwnership.Occurrences(s.log, IsToAwake) + WakeOwnership.Occurrences(s.log, IsGivenUp)
      + |WakeOwnership.Holding(s.threads, WakeOwnership.IsWaker)|
      == WakeOwnership.Occurrences(s.log, WakeStarts.IsToWaking)
  }

  /** Every write of awake has led to a stop, to a watcher that found itself out of date, or to one still watching. */
  predicate WatchersAccountedFor(s: Sys) {
    WakeOwnership.Occurrences(s.log, IsStopIssued) + WakeOwnership.Occurrences(s.log, IsRetired)
      + |WakeOwnership.Holding(s.threads, IsWatching)|
      == WakeOwnership.Occurrences(s.log, IsToAwake)
  }

  predicate StopsOnce(log: seq<Event>) {
    forall i, j :: 0 <= i < j < |log| && log[i].StopIssued? ==> log[i] != log[j]
  }

  lemma LivesBalance(s: Sys, a: Action)
    requires Enabled(s, a)
    ensures WakeOwnership.Has(s, a, WakeOwnership.IsWaker)
        + WakeOwnership.Recorded(s, a, IsToAwake) + WakeOwnership.Recorded(s, a, IsGivenUp)
      == WakeOwnership.Had(s, a, WakeOwnership.IsWaker) + WakeOwnership.Recorded(s, a, WakeStarts.IsToWaking)
    ensures WakeOwnership.Has(s, a, IsWatching)
        + WakeOwnership.Recorded(s, a, IsStopIssued) + WakeOwnership.Recorded(s, a, IsRetired)
      == WakeOwnership.Had(s, a, IsWatching) + WakeOwnership.Recorded(s, a, IsToAwake)
  {
  }

  lemma WakesStep(s: Sys, a: Action)
    requires WakesAccountedFor(s) && Enabled(s, a)
    ensures WakesAccountedFor(Next(s, a))
  {
    WakeOwnership.StepMoves(s, a, WakeOwnership.IsWaker);
    WakeOwnership.RecordsCounted(s, a, IsToAwake);
    WakeOwnership.RecordsCounted(s, a, IsGivenUp);
    WakeOwnership.RecordsCounted(s, a, WakeStarts.IsToWaking);
    LivesBalance(s, a);
  }

  lemma WatchersStep(s: Sys, a: Action)
    requires WatchersAccountedFor(s) && Enabled(s, a)
    ensures WatchersAccountedFor(Next(s, a))
  {
    WakeOwnership.StepMoves(s, a, IsWatching);
    WakeOwnership.RecordsCounted(s, a, IsStopIssued);
    WakeOwnership.RecordsCounted(s, a, IsRetired);
    WakeOwnership.RecordsCounted(s, a, IsToAwake);
    LivesBalance(s, a);
  }

  lemma StopsOnceStep(s: Sys, a: Action)
    requires StopsOnce(s.log) && WakeStops.TimerKept(s, a.t) && Enabled(s, a)
    ensures StopsOnce(Next(s, a).log)
  {
    var r := Records(s, a);
    assert r == [] || r == [r[0]];
    assert forall i :: 0 <= i < |r| && r[i].StopIssued? ==> r[i] == StopIssued(a.t) && r[i] !in s.log;
  }

  lemma {:induction false} LivesHold(idleTimeout: int, actions: seq<Action>)
    requires Run(idleTimeout, actions).Some?
    ensures var s := Run(idleTimeout, actions).value;
            WakesAccountedFor(s) && WatchersAccountedFor(s) && StopsOnce(s.log)
  {
    if actions == [] {
      assert WakeOwnership.Holding(map[], WakeOwnership.IsWaker) == {};
      assert WakeOwnership.Holding(map[], IsWatching) == {};
    } else {
      var n := |actions| - 1;
      var s, a := Run(idleTimeout, actions[..n]).value, actions[n];
      LivesHold(idleTimeout, actions[..n]);
      WakeStops.TimerHolds(idleTimeout, actions[..n], a.t);
      WakesStep(s, a);
      WatchersStep(s, a);
      StopsOnceStep(s, a);
    }
  }

  // ----- The theorem -----

  /** A watcher stops the server at most once, and stops are rationed: no more of them than writes of awake,
      and no more of those than transitions to waking; what is missing was given up, retired or is still at work. */
  lemma StopsRationed(idleTimeout: int, actions: seq<Action>)
    requires Run(idleTimeout, actions).Some?
    ensures var s := Run(idleTimeout, actions).value;
            && StopsOnce(s.log)
            && WakesAccountedFor(s) && WatchersAccountedFor(s)
            && WakeOwnership.Occurrences(s.log, IsStopIssued) <= WakeOwnership.Occurrences(s.log, IsToAwake)
               <= WakeOwnership.Occurrences(s.log, WakeStarts.IsToWaking)
  {
    LivesHold(idleTimeout, actions);
  }
}
