/** Over whole runs: who calls the start command, and how often. */
module WakeStarts {
  import opened Wrappers
  import opened IdleTimer
  import opened IdleInstance
  import opened WakeMachine
  import opened WakeOwnership

  predicate IsToWaking(e: Event) {
    e.ToWaking?
  }

  predicate IsStarted(e: Event) {
    e.Started?
  }

  predicate IsToAsleep(e: Event) {
    e.ToAsleep?
  }

  predicate IsStarting(pc: Pc) {
    pc.Starting?
  }

  // ----- Transitions to waking and writes of asleep alternate -----

  /** No write of asleep has come after the last transition to waking. */
  predicate WakingNotUndone(log: seq<Event>) {
    log != [] &&
    var last := log[|log| - 1];
    last.ToWaking? || (!last.ToAsleep? && WakingNotUndone(log[..|log| - 1]))
  }

  predicate AsleepBetween(log: seq<Event>, i: nat, j: nat)
    requires i <= j <= |log|
  {
    exists k :: i < k < j && log[k].ToAsleep?
  }

  predicate WakingsSeparated(log: seq<Event>) {
    forall i, j :: 0 <= i < j < |log| && log[i].ToWaking? && log[j].ToWaking? ==> AsleepBetween(log, i, j)
  }

  lemma {:induction false} UndoneSince(log: seq<Event>, i: nat)
    requires i < |log| && log[i].ToWaking? && !WakingNotUndone(log)
    ensures AsleepBetween(log, i, |log|)
  {
    var n := |log| - 1;
    if log[n].ToAsleep? {
      assert i < n < |log|;
    } else {
      UndoneSince(log[..n], i);
      var k :| i < k < n && log[..n][k].ToAsleep?;
      assert log[k].ToAsleep?;
    }
  }

  // ----- What every step keeps -----

  /** Every transition to waking has led to its start, or is about to. */
  predicate StartsMatchWakings(s: Sys) {
    Occurrences(s.log, IsStarted) + |Holding(s.threads, IsStarting)| == Occurrences(s.log, IsToWaking)
  }

  predicate WakingsAlternate(s: Sys) {
    && WakingsSeparated(s.log)
    && (s.shared.state == Asleep ==> !WakingNotUndone(s.log))
    && Occurrences(s.log, IsToWaking) <= Occurrences(s.log, IsToAsleep) + Indicator(WakingNotUndone(s.log))
  }

  /** The pcs a connection passes through before it has won a transition to waking. */
  predicate BeforeWinning(pc: Pc) {
    pc.Connected? || pc.Dialing? || pc.Resyncing? || pc.Kicking? || pc.Greeting? || pc.Entering?
  }

  predicate PerConnection(s: Sys, t: Tid) {
    && (t in s.threads && BeforeWinning(s.threads[t]) ==> ToWaking(t) !in s.log)
    && (ToWaking(t) !in s.log ==> Started(t) !in s.log)
    && (t in s.threads && s.threads[t].Starting? ==> ToWaking(t) in s.log && Started(t) !in s.log)
    && (Saw(t, Waking) in s.log ==>
          ToWaking(t) !in s.log && t in s.threads && (s.threads[t].Kicking? || s.threads[t].Gone?))
    && (t !in s.threads ==> forall e :: e in s.log ==> e.t != t)
  }

  predicate OncePerConnection(log: seq<Event>) {
    forall i, j :: 0 <= i < j < |log| && (log[i].Started? || log[i].ToWaking?) ==> log[i] != log[j]
  }

  predicate StartsFollowWakings(log: seq<Event>) {
    forall j :: 0 <= j < |log| && log[j].Started? ==> ToWaking(log[j].t) in log[..j]
  }

  ghost predicate Inv(s: Sys) {
    && StartsMatchWakings(s)
    && WakingsAlternate(s)
    && (forall t: Tid :: PerConnection(s, t))
    && OncePerConnection(s.log)
    && StartsFollowWakings(s.log)
  }

  lemma CountsStep(s: Sys, a: Action)
    requires Inv(s) && Enabled(s, a)
    ensures StartsMatchWakings(Next(s, a))
  {
    StepMoves(s, a, IsStarting);
    RecordsCounted(s, a, IsStarted);
    RecordsCounted(s, a, IsToWaking);
  }

  lemma SeparatedOneMore(log: seq<Event>, e: Event)
    requires WakingsSeparated(log) && (e.ToWaking? ==> !WakingNotUndone(log))
    ensures WakingsSeparated(log + [e])
  {
    var longer := log + [e];
    forall i, j | 0 <= i < j < |longer| && longer[i].ToWaking? && longer[j].ToWaking?
      ensures AsleepBetween(longer, i, j)
    {
      if j < |log| {
        assert AsleepBetween(log, i, j);
      } else {
        UndoneSince(log, i);
      }
      var k :| i < k < j && log[k].ToAsleep?;
      assert longer[k].ToAsleep?;
    }
  }

  lemma UndoneOneMore(log: seq<Event>, e: Event)
    ensures WakingNotUndone(log + [e]) <==> e.ToWaking? || (!e.ToAsleep? && WakingNotUndone(log))
  {
    assert (log + [e])[..|log|] == log;
  }

  lemma AlternationStep(s: Sys, a: Action)
    requires Inv(s) && Enabled(s, a)
    ensures WakingsAlternate(Next(s, a))
  {
    RecordsCounted(s, a, IsToWaking);
    RecordsCounted(s, a, IsToAsleep);
    var r := Records(s, a);
    if r == [] {
      assert Next(s, a).log == s.log;
    } else {
      assert r == [r[0]];
      SeparatedOneMore(s.log, r[0]);
      UndoneOneMore(s.log, r[0]);
    }
  }

  lemma LogGrows(s: Sys, a: Action)
    requires Enabled(s, a)
    ensures forall e :: e in Next(s, a).log <==> e in s.log || e in Records(s, a)
    ensures forall e :: e in Records(s, a) ==> e.t == a.t
  {
  }

  lemma ActorMoves(s: Sys, a: Action)
    requires Enabled(s, a)
    ensures var t, pc, r := a.t, NextPc(s, a), Records(s, a);
            && (BeforeWinning(pc) ==> ToWaking(t) !in r && (t in s.threads ==> BeforeWinning(s.threads[t])))
            && (ToWaking(t) in r ==> t in s.threads && s.threads[t].Entering?)
            && (Started(t) in r ==> t in s.threads && s.threads[t].Starting?)
            && (pc.Starting? ==> ToWaking(t) in r && Started(t) !in r)
            && (Saw(t, Waking) in r ==> t in s.threads && s.threads[t].Connected? && pc.Kicking? && ToWaking(t) !in r)
            && (t in s.threads && s.threads[t].Kicking? ==> pc.Gone? && ToWaking(t) !in r)
            && (t in s.threads ==> !s.threads[t].Gone?)
  {
  }

  lemma ActorStep(s: Sys, a: Action)
    requires Inv(s) && Enabled(s, a)
    ensures PerConnection(Next(s, a), a.t)
  {
    assert PerConnection(s, a.t);
    LogGrows(s, a);
    ActorMoves(s, a);
    assert Next(s, a).threads[a.t] == NextPc(s, a);
  }

  lemma BystanderStep(s: Sys, a: Action, t: Tid)
    requires Inv(s) && Enabled(s, a) && t != a.t
    ensures PerConnection(Next(s, a), t)
  {
    assert PerConnection(s, t);
    LogGrows(s, a);
    assert forall e: Event :: e.t == t ==> (e in Next(s, a).log <==> e in s.log);
  }

  lemma OrderStep(s: Sys, a: Action)
    requires Inv(s) && Enabled(s, a)
    ensures OncePerConnection(Next(s, a).log) && StartsFollowWakings(Next(s, a).log)
  {
    var r, log' := Records(s, a), Next(s, a).log;
    if r == [] {
      assert log' == s.log;
    } else {
      assert r == [r[0]];
      assert PerConnection(s, a.t);
      ActorMoves(s, a);
      assert (r[0].Started? || r[0].ToWaking?) ==> r[0] !in s.log;
      assert r[0].Started? ==> ToWaking(r[0].t) in s.log;
      OneMore(s.log, r[0]);
    }
  }

  lemma OneMore(log: seq<Event>, e: Event)
    requires OncePerConnection(log) && StartsFollowWakings(log)
    requires e.Started? || e.ToWaking? ==> e !in log
    requires e.Started? ==> ToWaking(e.t) in log
    ensures OncePerConnection(log + [e]) && StartsFollowWakings(log + [e])
  {
    forall j | 0 <= j < |log + [e]| && (log + [e])[j].Started?
      ensures ToWaking((log + [e])[j].t) in (log + [e])[..j]
    {
      assert (log + [e])[..j] == log[..j];
    }
  }

  lemma {:induction false} InvHolds(idleTimeout: int, actions: seq<Action>)
    requires Run(idleTimeout, actions).Some?
    ensures Inv(Run(idleTimeout, actions).value)
  {
    if actions == [] {
      assert Holding(map[], IsStarting) == {};
    } else {
      var n := |actions| - 1;
      var s, a := Run(idleTimeout, actions[..n]).value, actions[n];
      InvHolds(idleTimeout, actions[..n]);
      CountsStep(s, a);
      AlternationStep(s, a);
      OrderStep(s, a);
      forall t: Tid
        ensures PerConnection(Next(s, a), t)
      {
        if t == a.t {
          ActorStep(s, a);
        } else {
          BystanderStep(s, a, t);
        }
      }
    }
  }

  // ----- The theorems -----

  /** Starts are rationed by writes of asleep: each has its own transition to waking, and those alternate with
      asleep. */
  lemma StartDiscipline(idleTimeout: int, actions: seq<Action>)
    requires Run(idleTimeout, actions).Some?
    ensures var log := Run(idleTimeout, actions).value.log;
            && Occurrences(log, IsStarted) <= Occurrences(log, IsToWaking) <= 1 + Occurrences(log, IsToAsleep)
            && WakingsSeparated(log) && StartsFollowWakings(log) && OncePerConnection(log)
  {
    InvHolds(idleTimeout, actions);
  }

  /** A connection that saw the waking state never starts anything. */
  lemma WakingConnectionsStartNothing(idleTimeout: int, actions: seq<Action>, t: Tid)
    requires Run(idleTimeout, actions).Some?
    requires Saw(t, Waking) in Run(idleTimeout, actions).value.log
    ensures Started(t) !in Run(idleTimeout, actions).value.log
    ensures ToWaking(t) !in Run(idleTimeout, actions).value.log
  {
    InvHolds(idleTimeout, actions);
    assert PerConnection(Run(idleTimeout, actions).value, t);
  }
}
