/** Over whole runs: what must have happened to a goroutine before it writes the shared state or starts the server. */
module WakeCauses {
  import opened Wrappers
  import opened IdleTimer
  import opened IdleInstance
  import opened WakeMachine
  import WakeOwnership
  import WakeStarts

  // ----- Causes, on the actions of the run alone -----

  /** The pcs of a connection that has been through a login and won't be heard of as a connection again. */
  predicate AfterLogin(pc: Pc) {
    pc.Entering? || pc.Starting? || pc.AwaitingBackend? || pc.GivingUp? || pc.ComingUp? || pc.Spawning?
  }

  /** What t's place in the code says has happened to it. */
  predicate PlaceCaused(actions: seq<Action>, log: seq<Event>, pc: Pc, t: Tid) {
    && (AfterLogin(pc) ==> Answered(t, true) in actions)
    && (pc.Resyncing? ==> Dialed(t, false) in actions)
    && (pc.GivingUp? ==> Waited(t, false) in actions)
    && (pc.ComingUp? || pc.Spawning? ==> Waited(t, true) in actions)
    && (pc.PuttingToSleep? ==> StopIssued(t) in log)
  }

  predicate WriteCaused(actions: seq<Action>, log: seq<Event>, e: Event) {
    && (e.ToWaking? || e.Started? ==> Answered(e.t, true) in actions)
    && (e.ToAsleep? && e.cause == Resync ==> Dialed(e.t, false) in actions)
    && (e.ToAsleep? && e.cause == NeverReady ==> Waited(e.t, false) in actions)
    && (e.ToAsleep? && e.cause == IdleStop ==> StopIssued(e.t) in log)
    && (e.ToAwake? ==> Waited(e.t, true) in actions)
  }

  predicate AllCaused(actions: seq<Action>, s: Sys) {
    && (forall t :: t in s.threads ==> PlaceCaused(actions, s.log, s.threads[t], t))
    && (forall e :: e in s.log ==> WriteCaused(actions, s.log, e))
  }

  lemma CausesLast(actions: seq<Action>, more: seq<Action>, log: seq<Event>, longer: seq<Event>)
    requires forall a :: a in actions ==> a in more
    requires forall e :: e in log ==> e in longer
    ensures forall pc, t :: PlaceCaused(actions, log, pc, t) ==> PlaceCaused(more, longer, pc, t)
    ensures forall e :: WriteCaused(actions, log, e) ==> WriteCaused(more, longer, e)
  {
  }

  lemma ActorCaused(actions: seq<Action>, s: Sys, a: Action)
    requires Enabled(s, a)
    requires a.t in s.threads ==> PlaceCaused(actions, s.log, s.threads[a.t], a.t)
    ensures PlaceCaused(actions + [a], Next(s, a).log, NextPc(s, a), a.t)
    ensures forall e :: e in Records(s, a) ==> WriteCaused(actions + [a], Next(s, a).log, e)
  {
    assert a in actions + [a];
    assert forall b :: b in actions ==> b in actions + [a];
    assert forall e :: e in s.log || e in Records(s, a) ==> e in Next(s, a).log;
    assert a.StopCalled? ==> StopIssued(a.t) in Records(s, a);
  }

  lemma CausedStep(actions: seq<Action>, s: Sys, a: Action)
    requires AllCaused(actions, s) && Enabled(s, a)
    ensures AllCaused(actions + [a], Next(s, a))
  {
    ActorCaused(actions, s, a);
    CausesLast(actions, actions + [a], s.log, Next(s, a).log);
    forall t | t in Next(s, a).threads
      ensures PlaceCaused(actions + [a], Next(s, a).log, Next(s, a).threads[t], t)
    {
      if t != a.t && !(a.Spawn? && t == a.child) {
        assert t in s.threads;
      }
    }
  }

  lemma {:induction false} CausedHolds(idleTimeout: int, actions: seq<Action>)
    requires Run(idleTimeout, actions).Some?
    ensures AllCaused(actions, Run(idleTimeout, actions).value)
  {
    if actions != [] {
      var n := |actions| - 1;
      CausedHolds(idleTimeout, actions[..n]);
      CausedStep(actions[..n], Run(idleTimeout, actions[..n]).value, actions[n]);
      assert actions[..n] + [actions[n]] == actions;
    }
  }

  /** Only a login wakes the server. */
  lemma {:induction false} OnlyLoginsWake(idleTimeout: int, actions: seq<Action>, t: Tid)
    requires Run(idleTimeout, actions).Some?
    ensures ToWaking(t) in Run(idleTimeout, actions).value.log ==> Answered(t, true) in actions
    ensures Started(t) in Run(idleTimeout, actions).value.log ==> Answered(t, true) in actions
  {
    CausedHolds(idleTimeout, actions);
  }

  /** Awake is written only once the backend answered, and asleep only after a failed dial, a backend that never
      came up, or a stop. */
  lemma {:induction false} WritesHaveCauses(idleTimeout: int, actions: seq<Action>, t: Tid, over: WakeState)
    requires Run(idleTimeout, actions).Some?
    ensures var log := Run(idleTimeout, actions).value.log;
            && (ToAwake(t, over) in log ==> Waited(t, true) in actions)
            && (ToAsleep(t, over, Resync) in log ==> Dialed(t, false) in actions)
            && (ToAsleep(t, over, NeverReady) in log ==> Waited(t, false) in actions)
            && (ToAsleep(t, over, IdleStop) in log ==> StopIssued(t) in log)
  {
    CausedHolds(idleTimeout, actions);
  }

  // ----- A connection that reached the backend -----

  predicate OnlySawAwake(log: seq<Event>, t: Tid) {
    forall e :: e in log && e.t == t ==> e == Saw(t, Awake)
  }

  predicate ProxiedQuietly(actions: seq<Action>, s: Sys, t: Tid) {
    && (t !in s.threads || s.threads[t].Connected? ==>
          (forall e :: e in s.log ==> e.t != t) && Dialed(t, true) !in actions)
    && (t in s.threads && s.threads[t].Dialing? ==> OnlySawAwake(s.log, t))
    && (Dialed(t, true) in actions ==> t in s.threads && s.threads[t].Gone? && OnlySawAwake(s.log, t))
  }

  lemma ProxiedStep(actions: seq<Action>, s: Sys, a: Action, t: Tid)
    requires ProxiedQuietly(actions, s, t) && Enabled(s, a)
    ensures ProxiedQuietly(actions + [a], Next(s, a), t)
  {
    WakeStarts.LogGrows(s, a);
    assert Dialed(t, true) in actions + [a] <==> Dialed(t, true) in actions || a == Dialed(t, true);
  }

  lemma {:induction false} ProxiedHolds(idleTimeout: int, actions: seq<Action>, t: Tid)
    requires Run(idleTimeout, actions).Some?
    ensures ProxiedQuietly(actions, Run(idleTimeout, actions).value, t)
  {
    if actions != [] {
      var n := |actions| - 1;
      ProxiedHolds(idleTimeout, actions[..n], t);
      ProxiedStep(actions[..n], Run(idleTimeout, actions[..n]).value, actions[n], t);
      assert actions[..n] + [actions[n]] == actions;
    }
  }

  /** A connection whose dial succeeded has seen awake and does nothing else: no resync, no wake, no start. */
  lemma {:induction false} ReachedBackendWritesNothing(idleTimeout: int, actions: seq<Action>, t: Tid)
    requires Run(idleTimeout, actions).Some? && Dialed(t, true) in actions
    ensures OnlySawAwake(Run(idleTimeout, actions).value.log, t)
  {
    ProxiedHolds(idleTimeout, actions, t);
  }

  // ----- The waking time a handler shows its client -----

  /** Somebody entered waking at that time. */
  ghost predicate EnteredAt(actions: seq<Action>, since: Option<int>) {
    since.Some? ==> exists u :: EnterWake(u, since.value) in actions
  }

  ghost predicate TimesReal(actions: seq<Action>, s: Sys) {
    && EnteredAt(actions, s.shared.wakingSince)
    && forall t :: t in s.threads && s.threads[t].Kicking? ==>
         s.threads[t].since.Some? && EnteredAt(actions, s.threads[t].since)
  }

  lemma EnteredStays(actions: seq<Action>, a: Action, since: Option<int>)
    requires EnteredAt(actions, since) || (a.EnterWake? && since == Some(a.now))
    ensures EnteredAt(actions + [a], since)
  {
    if EnteredAt(actions, since) {
      if since.Some? {
        var u :| EnterWake(u, since.value) in actions;
        assert EnterWake(u, since.value) in actions + [a];
      }
    } else {
      assert EnterWake(a.t, a.now) == a && a in actions + [a];
    }
  }

  lemma TimesStep(actions: seq<Action>, s: Sys, a: Action)
    requires TimesReal(actions, s) && Enabled(s, a)
    requires s.shared.wakingSince.Some? <==> s.shared.state == Waking
    ensures TimesReal(actions + [a], Next(s, a))
  {
    var next := Next(s, a);
    if next.shared.wakingSince.Some? {
      EnteredStays(actions, a, next.shared.wakingSince);
    }
    forall t | t in next.threads && next.threads[t].Kicking?
      ensures next.threads[t].since.Some? && EnteredAt(actions + [a], next.threads[t].since)
    {
      if t == a.t {
        assert a.ReadState? && next.threads[t].since == s.shared.wakingSince;
      }
      EnteredStays(actions, a, next.threads[t].since);
    }
  }

  /** A handler that found the server waking holds the time at which some wake began: never the zero time. */
  lemma {:induction false} KicksShowARealTime(idleTimeout: int, actions: seq<Action>)
    requires Run(idleTimeout, actions).Some?
    ensures TimesReal(actions, Run(idleTimeout, actions).value)
  {
    if actions != [] {
      var n := |actions| - 1;
      KicksShowARealTime(idleTimeout, actions[..n]);
      WakeOwnership.InvHolds(idleTimeout, actions[..n]);
      TimesStep(actions[..n], Run(idleTimeout, actions[..n]).value, actions[n]);
      assert actions[..n] + [actions[n]] == actions;
    }
  }

  // ----- What a handler that reads the state while waking may do -----

  lemma {:induction false} LogKept(idleTimeout: int, actions: seq<Action>, i: nat)
    requires Run(idleTimeout, actions).Some? && i <= |actions|
    ensures Run(idleTimeout, actions[..i]).Some?
    ensures Run(idleTimeout, actions[..i]).value.log <= Run(idleTimeout, actions).value.log
    ensures i < |actions| ==> Enabled(Run(idleTimeout, actions[..i]).value, actions[i])
    decreases |actions|
  {
    if i == |actions| {
      assert actions[..i] == actions;
    } else {
      var n := |actions| - 1;
      LogKept(idleTimeout, actions[..n], i);
      assert actions[..n][..i] == actions[..i];
    }
  }

  /** A connection that reads the state while the server is waking never starts it, whatever happens after. */
  lemma {:induction false} ReadingWakingStartsNothing(idleTimeout: int, actions: seq<Action>, i: nat, t: Tid)
    requires Run(idleTimeout, actions).Some? && i < |actions| && actions[i] == ReadState(t)
    requires Run(idleTimeout, actions[..i]).Some? && Run(idleTimeout, actions[..i]).value.shared.state == Waking
    ensures Started(t) !in Run(idleTimeout, actions).value.log && ToWaking(t) !in Run(idleTimeout, actions).value.log
  {
    LogKept(idleTimeout, actions, i);
    LogKept(idleTimeout, actions, i + 1);
    assert actions[..i + 1][..i] == actions[..i];
    var s := Run(idleTimeout, actions[..i]).value;
    assert Run(idleTimeout, actions[..i + 1]) == Some(Next(s, ReadState(t)));
    assert Saw(t, Waking) in Next(s, ReadState(t)).log;
    WakeStarts.WakingConnectionsStartNothing(idleTimeout, actions, t);
  }

  // ----- A watcher counts players only while it sees the server awake -----

  /** The last thing t did was to read the state, and it was awake. */
  predicate JustReadAwake(idleTimeout: int, actions: seq<Action>, t: Tid) {
    actions != [] &&
    var n := |actions| - 1;
    if actions[n].t == t then
      && actions[n] == ReadPoll(t)
      && Run(idleTimeout, actions[..n]).Some? && Run(idleTimeout, actions[..n]).value.shared.state == Awake
    else JustReadAwake(idleTimeout, actions[..n], t)
  }

  lemma {:induction false} CountingHasRead(idleTimeout: int, actions: seq<Action>, t: Tid)
    requires Run(idleTimeout, actions).Some?
    ensures var s := Run(idleTimeout, actions).value;
            t in s.threads && s.threads[t].Counting? ==> JustReadAwake(idleTimeout, actions, t)
  {
    if actions != [] {
      CountingHasRead(idleTimeout, actions[..|actions| - 1], t);
    }
  }

  /** Every count of players, and so every stop, comes right after its watcher read that the server is awake. */
  lemma {:induction false} CountsOnlyWhenAwake(idleTimeout: int, actions: seq<Action>, i: nat, t: Tid, p: Poll)
    requires Run(idleTimeout, actions).Some? && i < |actions| && actions[i] == CountPlayers(t, p)
    ensures JustReadAwake(idleTimeout, actions[..i], t)
  {
    LogKept(idleTimeout, actions, i);
    CountingHasRead(idleTimeout, actions[..i], t);
  }

  // ----- Nobody is stuck -----

  /** What a goroutine can do next, whatever the environment answers. */
  function Move(pc: Pc, t: Tid, answer: bool, poll: Poll, now: int, child: Tid): Action {
    match pc
    case Connected => ReadState(t)
    case Dialing => Dialed(t, answer)
    case Resyncing => WriteAsleep(t)
    case Kicking(_) => Answered(t, answer)
    case Greeting => Answered(t, answer)
    case Entering => EnterWake(t, now)
    case Starting => CallStart(t)
    case AwaitingBackend => Waited(t, answer)
    case GivingUp => WriteAsleep(t)
    case ComingUp => WriteAwake(t)
    case Spawning => Spawn(t, child)
    case Polling(_) => ReadPoll(t)
    case Counting(_) => CountPlayers(t, poll)
    case Stopping => StopCalled(t)
    case PuttingToSleep => WriteAsleep(t)
    case Gone => Accept(t)
  }

  /** What the environment answered in this action. */
  function AnswerOf(a: Action): bool {
    match a
    case Dialed(_, ok) => ok
    case Answered(_, login) => login
    case Waited(_, up) => up
    case _ => false
  }

  /** Each goroutine that has not ended can take its next step, for every answer the environment may give, and no other
      step; a connection with a new identifier can always come in, and one that has ended stays so. */
  lemma {:induction false} NobodyIsStuck(s: Sys, t: Tid, answer: bool, poll: Poll, now: int, child: Tid)
    requires child !in s.threads
    ensures t in s.threads && !s.threads[t].Gone? ==>
      var a := Move(s.threads[t], t, answer, poll, now, child); a.t == t && Enabled(s, a)
    ensures t !in s.threads ==> Enabled(s, Accept(t))
    ensures t in s.threads && s.threads[t].Gone? ==> forall a: Action :: a.t == t ==> !Enabled(s, a)
    ensures t in s.threads ==> forall a: Action :: a.t == t && Enabled(s, a) ==>
      a == Move(s.threads[t], t, AnswerOf(a), if a.CountPlayers? then a.poll else poll,
                if a.EnterWake? then a.now else now, if a.Spawn? then a.child else child)
  {
  }

  lemma {:induction false} SomeoneNew(ids: set<Tid>) returns (child: Tid)
    ensures child !in ids
  {
    child := 0;
    var below: set<Tid> := {};
    while child in ids
      invariant below <= ids && child !in below && forall u :: u in below ==> u < child
      decreases ids - below
    {
      below := below + {child};
      child := child + 1;
    }
  }
}
