/** Who owns the waking and the awake state, in every reachable state of the machine. */
module WakeOwnership {
  import opened Wrappers
  import opened IdleTimer
  import opened IdleInstance
  import opened WakeMachine

  // ----- Owners and the record of the run -----

  /** A wake between its two lock sections. */
  predicate IsWaker(pc: Pc) {
    pc.Starting? || pc.AwaitingBackend? || pc.GivingUp? || pc.ComingUp?
  }

  /** A live idle watcher, or a wake about to spawn one. */
  predicate IsWatcher(pc: Pc) {
    pc.Spawning? || pc.Polling? || pc.Counting? || pc.Stopping? || pc.PuttingToSleep?
  }

  function Holding(threads: map<Tid, Pc>, p: Pc -> bool): set<Tid> {
    set t | t in threads && p(threads[t])
  }

  /** A resync that overwrote a state other than asleep. */
  predicate IsOverwrite(e: Event) {
    e.ToAsleep? && e.cause == Resync && e.over != Asleep
  }

  /** An owner whose write, or read, found that the state was no longer its own. */
  predicate IsStale(e: Event) {
    || (e.ToAsleep? && e.cause != Resync && e.over == Asleep)
    || (e.ToAwake? && e.over == Asleep)
    || e.Retired?
  }

  function Occurrences(log: seq<Event>, p: Event -> bool): nat {
    if log == [] then 0
    else Occurrences(log[..|log| - 1], p) + if p(log[|log| - 1]) then 1 else 0
  }

  function Indicator(b: bool): nat {
    if b then 1 else 0
  }

  /** Whether the acting thread held a role, holds it now, and whether a child was given it. */
  function Had(s: Sys, a: Action, p: Pc -> bool): nat
    requires Enabled(s, a)
  {
    Indicator(a.t in s.threads && p(s.threads[a.t]))
  }

  function Has(s: Sys, a: Action, p: Pc -> bool): nat
    requires Enabled(s, a)
  {
    Indicator(p(NextPc(s, a))) + Indicator(a.Spawn? && p(Polling(None)))
  }

  function Recorded(s: Sys, a: Action, p: Event -> bool): nat
    requires Enabled(s, a)
  {
    Indicator(Records(s, a) != [] && p(Records(s, a)[0]))
  }

  lemma OccurrencesOfOneMore(log: seq<Event>, e: Event, p: Event -> bool)
    ensures Occurrences(log + [e], p) == Occurrences(log, p) + Indicator(p(e))
  {
    assert (log + [e])[..|log|] == log;
  }

  lemma RecordsCounted(s: Sys, a: Action, p: Event -> bool)
    requires Enabled(s, a)
    ensures Occurrences(Next(s, a).log, p) ==
      Occurrences(s.log, p) + Recorded(s, a, p)
  {
    var r := Records(s, a);
    if r == [] {
      assert s.log + r == s.log;
    } else {
      assert r == [r[0]];
      OccurrencesOfOneMore(s.log, r[0], p);
    }
  }

  lemma OneThreadMoves(threads: map<Tid, Pc>, t: Tid, pc: Pc, p: Pc -> bool)
    ensures |Holding(threads[t := pc], p)| ==
      |Holding(threads, p)| - Indicator(t in threads && p(threads[t])) + Indicator(p(pc))
  {
    var before, after := Holding(threads, p), Holding(threads[t := pc], p);
    forall u | u != t
      ensures u in before <==> u in after
    {
    }
    assert before - {t} == after - {t};
    Without(before, t);
    Without(after, t);
  }

  lemma Without(s: set<Tid>, t: Tid)
    ensures |s| == |s - {t}| + Indicator(t in s)
  {
    if t in s {
      assert s == (s - {t}) + {t};
    } else {
      assert s == s - {t};
    }
  }

  lemma StepMoves(s: Sys, a: Action, p: Pc -> bool)
    requires Enabled(s, a)
    ensures |Holding(Next(s, a).threads, p)| == |Holding(s.threads, p)| - Had(s, a, p) + Has(s, a, p)
  {
    OneThreadMoves(s.threads, a.t, NextPc(s, a), p);
    if a.Spawn? {
      OneThreadMoves(s.threads[a.t := NextPc(s, a)], a.child, Polling(None), p);
    }
  }

  // ----- What every step keeps -----

  predicate ClockMatchesState(s: Sys) {
    s.shared.wakingSince.Some? <==> s.shared.state == Waking
  }

  /** Conservation: owners, plus owners found stale, are the one the state promises plus those overwritten. */
  predicate OwnersAccountedFor(s: Sys) {
    |Holding(s.threads, IsWaker)| + |Holding(s.threads, IsWatcher)| + Occurrences(s.log, IsStale)
      == Indicator(s.shared.state != Asleep) + Occurrences(s.log, IsOverwrite)
  }

  predicate NotOrphaned(s: Sys) {
    && (s.shared.state == Waking ==> |Holding(s.threads, IsWaker)| >= 1)
    && (s.shared.state == Awake ==> |Holding(s.threads, IsWatcher)| >= 1)
  }

  ghost predicate Inv(s: Sys) {
    ClockMatchesState(s) && OwnersAccountedFor(s) && NotOrphaned(s)
  }

  lemma RolesBalance(s: Sys, a: Action)
    requires Enabled(s, a)
    ensures Has(s, a, IsWaker) + Has(s, a, IsWatcher) + Recorded(s, a, IsStale) + Indicator(s.shared.state != Asleep)
      == Had(s, a, IsWaker) + Had(s, a, IsWatcher) + Recorded(s, a, IsOverwrite)
         + Indicator(NextShared(s, a).state != Asleep)
  {
  }

  /** While waking or awake lasts nobody gives the matching role up, and whoever enters the state takes it. */
  lemma RolesKept(s: Sys, a: Action)
    requires Enabled(s, a)
    ensures NextShared(s, a).state == Waking ==>
      Has(s, a, IsWaker) >= Had(s, a, IsWaker) + Indicator(s.shared.state != Waking)
    ensures NextShared(s, a).state == Awake ==>
      Has(s, a, IsWatcher) >= Had(s, a, IsWatcher) + Indicator(s.shared.state != Awake)
  {
  }

  lemma InvStep(s: Sys, a: Action)
    requires Inv(s) && Enabled(s, a)
    ensures Inv(Next(s, a))
  {
    StepMoves(s, a, IsWaker);
    StepMoves(s, a, IsWatcher);
    RecordsCounted(s, a, IsOverwrite);
    RecordsCounted(s, a, IsStale);
    RolesBalance(s, a);
    RolesKept(s, a);
  }

  lemma {:induction false} InvHolds(idleTimeout: int, actions: seq<Action>)
    requires Run(idleTimeout, actions).Some?
    ensures Inv(Run(idleTimeout, actions).value)
  {
    if actions == [] {
      assert Holding(map[], IsWaker) == {} && Holding(map[], IsWatcher) == {};
    } else {
      var n := |actions| - 1;
      InvHolds(idleTimeout, actions[..n]);
      InvStep(Run(idleTimeout, actions[..n]).value, actions[n]);
    }
  }

  // ----- The theorems -----

  /** Exclusive ownership: waking has one wake at work, awake one watcher, and nobody else is one. */
  predicate ExclusivelyOwned(s: Sys) {
    && |Holding(s.threads, IsWaker)| == Indicator(s.shared.state == Waking)
    && |Holding(s.threads, IsWatcher)| == Indicator(s.shared.state == Awake)
  }

  /** Owners never exceed one plus the overwrites, and ownership is exclusive exactly when every overwritten
      owner has found out since: at once, then, in a run without overwrites. */
  lemma OwnershipAccounting(idleTimeout: int, actions: seq<Action>)
    requires Run(idleTimeout, actions).Some?
    ensures var s := Run(idleTimeout, actions).value;
            var owners := |Holding(s.threads, IsWaker)| + |Holding(s.threads, IsWatcher)|;
            && owners + Occurrences(s.log, IsStale)
               == Indicator(s.shared.state != Asleep) + Occurrences(s.log, IsOverwrite)
            && owners <= Indicator(s.shared.state != Asleep) + Occurrences(s.log, IsOverwrite)
            && (ExclusivelyOwned(s) <==> Occurrences(s.log, IsStale) == Occurrences(s.log, IsOverwrite))
            && (Occurrences(s.log, IsOverwrite) == 0 ==> ExclusivelyOwned(s))
  {
    InvHolds(idleTimeout, actions);
  }

  /** Waking has a wake at work, awake has a watcher, and the waking clock runs exactly while waking. */
  lemma NeverOrphaned(idleTimeout: int, actions: seq<Action>)
    requires Run(idleTimeout, actions).Some?
    ensures var s := Run(idleTimeout, actions).value;
            && (s.shared.state == Waking ==> exists t :: t in s.threads && IsWaker(s.threads[t]))
            && (s.shared.state == Awake ==> exists t :: t in s.threads && IsWatcher(s.threads[t]))
            && (s.shared.wakingSince.Some? <==> s.shared.state == Waking)
  {
    InvHolds(idleTimeout, actions);
    var s := Run(idleTimeout, actions).value;
    SomeMember(s.threads, IsWaker);
    SomeMember(s.threads, IsWatcher);
  }

  lemma SomeMember(threads: map<Tid, Pc>, p: Pc -> bool)
    ensures |Holding(threads, p)| >= 1 ==> exists t :: t in threads && p(threads[t])
  {
    if |Holding(threads, p)| >= 1 {
      var t :| t in Holding(threads, p);
      assert t in threads && p(threads[t]);
    }
  }

  /** The bound is reached: two stale resyncs leave two wakes at work beside a watcher about to be spawned. */
  lemma TwoWakesAtOnce(idleTimeout: int) returns (actions: seq<Action>)
    ensures Run(idleTimeout, actions).Some?
    ensures var s := Run(idleTimeout, actions).value;
            && |Holding(s.threads, IsWaker)| == 2 && |Holding(s.threads, IsWatcher)| == 1
            && s.shared.state == Waking && Occurrences(s.log, IsOverwrite) == 2
  {
    var s;
    actions, s := FirstWake(idleTimeout);
    actions, s := SeeAwake(idleTimeout, actions, s, 2);
    actions, s := SeeAwake(idleTimeout, actions, s, 3);
    actions, s := ResyncAndWake(idleTimeout, actions, s, 2); // the backend died
    actions, s := ResyncAndWake(idleTimeout, actions, s, 3); // overwrites the waking state of 2
    CountOwners(s.threads);
  }

  lemma CountOwners(threads: map<Tid, Pc>)
    requires threads == map[1 := Spawning][2 := Dialing][3 := Dialing][2 := Starting][3 := Starting]
    ensures |Holding(threads, IsWaker)| == 2 && |Holding(threads, IsWatcher)| == 1
  {
    assert Holding(threads, IsWaker) == {2, 3} && Holding(threads, IsWatcher) == {1};
  }

  lemma FirstWake(idleTimeout: int) returns (actions: seq<Action>, s: Sys)
    ensures Run(idleTimeout, actions) == Some(s)
    ensures s.threads == map[1 := Spawning] && s.shared == Shared(Awake, None) && Occurrences(s.log, IsOverwrite) == 0
  {
    actions, s := [], Init(idleTimeout);
    actions, s := Greet(idleTimeout, actions, s, 1);
    actions, s := LogIn(idleTimeout, actions, s, 1);
    actions, s := StartUp(idleTimeout, actions, s, 1);
    actions, s := SeeUp(idleTimeout, actions, s, 1);
    actions, s := ComeUp(idleTimeout, actions, s, 1);
  }

  lemma StartUp(idleTimeout: int, before: seq<Action>, s0: Sys, t: Tid) returns (actions: seq<Action>, s: Sys)
    requires Run(idleTimeout, before) == Some(s0) && t in s0.threads && s0.threads[t].Starting?
    ensures Run(idleTimeout, actions) == Some(s)
    ensures s.threads == s0.threads[t := AwaitingBackend] && s.shared == s0.shared
    ensures Occurrences(s.log, IsOverwrite) == Occurrences(s0.log, IsOverwrite)
  {
    actions, s := Then(idleTimeout, before, s0, CallStart(t), AwaitingBackend, s0.shared, 0);
  }

  lemma SeeUp(idleTimeout: int, before: seq<Action>, s0: Sys, t: Tid) returns (actions: seq<Action>, s: Sys)
    requires Run(idleTimeout, before) == Some(s0) && t in s0.threads && s0.threads[t].AwaitingBackend?
    ensures Run(idleTimeout, actions) == Some(s)
    ensures s.threads == s0.threads[t := ComingUp] && s.shared == s0.shared
    ensures Occurrences(s.log, IsOverwrite) == Occurrences(s0.log, IsOverwrite)
  {
    actions, s := Then(idleTimeout, before, s0, Waited(t, true), ComingUp, s0.shared, 0);
  }

  lemma ComeUp(idleTimeout: int, before: seq<Action>, s0: Sys, t: Tid) returns (actions: seq<Action>, s: Sys)
    requires Run(idleTimeout, before) == Some(s0) && t in s0.threads && s0.threads[t].ComingUp?
    ensures Run(idleTimeout, actions) == Some(s)
    ensures s.threads == s0.threads[t := Spawning] && s.shared == Shared(Awake, None)
    ensures Occurrences(s.log, IsOverwrite) == Occurrences(s0.log, IsOverwrite)
  {
    actions, s := Then(idleTimeout, before, s0, WriteAwake(t), Spawning, Shared(Awake, None), 0);
  }

  lemma Greet(idleTimeout: int, before: seq<Action>, s0: Sys, t: Tid) returns (actions: seq<Action>, s: Sys)
    requires Run(idleTimeout, before) == Some(s0) && t !in s0.threads && s0.shared == AT_REST
    ensures Run(idleTimeout, actions) == Some(s)
    ensures s.threads == s0.threads[t := Greeting] && s.shared == AT_REST
    ensures Occurrences(s.log, IsOverwrite) == Occurrences(s0.log, IsOverwrite)
  {
    actions, s := Connect(idleTimeout, before, s0, t);
    actions, s := Then(idleTimeout, actions, s, ReadState(t), Greeting, AT_REST, 0);
  }

  lemma Connect(idleTimeout: int, before: seq<Action>, s0: Sys, t: Tid) returns (actions: seq<Action>, s: Sys)
    requires Run(idleTimeout, before) == Some(s0) && t !in s0.threads
    ensures Run(idleTimeout, actions) == Some(s)
    ensures s.threads == s0.threads[t := Connected] && s.shared == s0.shared
    ensures Occurrences(s.log, IsOverwrite) == Occurrences(s0.log, IsOverwrite)
  {
    actions, s := Then(idleTimeout, before, s0, Accept(t), Connected, s0.shared, 0);
  }

  /** A greeted login finds the instance at rest and becomes its wake. */
  lemma LogIn(idleTimeout: int, before: seq<Action>, s0: Sys, t: Tid) returns (actions: seq<Action>, s: Sys)
    requires Run(idleTimeout, before) == Some(s0) && t in s0.threads && s0.threads[t].Greeting? && s0.shared == AT_REST
    ensures Run(idleTimeout, actions) == Some(s)
    ensures s.threads == s0.threads[t := Starting] && s.shared == Shared(Waking, Some(0))
    ensures Occurrences(s.log, IsOverwrite) == Occurrences(s0.log, IsOverwrite)
  {
    actions, s := Then(idleTimeout, before, s0, Answered(t, true), Entering, AT_REST, 0);
    actions, s := Then(idleTimeout, actions, s, EnterWake(t, 0), Starting, Shared(Waking, Some(0)), 0);
  }

  lemma SeeAwake(idleTimeout: int, before: seq<Action>, s0: Sys, t: Tid) returns (actions: seq<Action>, s: Sys)
    requires Run(idleTimeout, before) == Some(s0) && t !in s0.threads && s0.shared.state == Awake
    ensures Run(idleTimeout, actions) == Some(s)
    ensures s.threads == s0.threads[t := Dialing] && s.shared == s0.shared
    ensures Occurrences(s.log, IsOverwrite) == Occurrences(s0.log, IsOverwrite)
  {
    actions, s := Connect(idleTimeout, before, s0, t);
    actions, s := Then(idleTimeout, actions, s, ReadState(t), Dialing, s0.shared, 0);
  }

  lemma FindDead(idleTimeout: int, before: seq<Action>, s0: Sys, t: Tid) returns (actions: seq<Action>, s: Sys)
    requires Run(idleTimeout, before) == Some(s0) && t in s0.threads && s0.threads[t].Dialing?
    requires s0.shared.state != Asleep
    ensures Run(idleTimeout, actions) == Some(s)
    ensures s.threads == s0.threads[t := Greeting] && s.shared == AT_REST
    ensures Occurrences(s.log, IsOverwrite) == Occurrences(s0.log, IsOverwrite) + 1
  {
    actions, s := Then(idleTimeout, before, s0, Dialed(t, false), Resyncing, s0.shared, 0);
    actions, s := Then(idleTimeout, actions, s, WriteAsleep(t), Greeting, AT_REST, 1);
  }

  lemma ResyncAndWake(idleTimeout: int, before: seq<Action>, s0: Sys, t: Tid) returns (actions: seq<Action>, s: Sys)
    requires Run(idleTimeout, before) == Some(s0) && t in s0.threads && s0.threads[t].Dialing?
    requires s0.shared.state != Asleep
    ensures Run(idleTimeout, actions) == Some(s)
    ensures s.threads == s0.threads[t := Starting] && s.shared.state == Waking
    ensures Occurrences(s.log, IsOverwrite) == Occurrences(s0.log, IsOverwrite) + 1
  {
    actions, s := FindDead(idleTimeout, before, s0, t);
    actions, s := LogIn(idleTimeout, actions, s, t);
  }

  lemma Then(idleTimeout: int, actions: seq<Action>, s: Sys, a: Action, pc: Pc, shared: Shared, overwrites: nat)
    returns (longer: seq<Action>, next: Sys)
    requires Run(idleTimeout, actions) == Some(s) && Enabled(s, a) && !a.Spawn?
    requires NextPc(s, a) == pc && NextShared(s, a) == shared && Recorded(s, a, IsOverwrite) == overwrites
    ensures Run(idleTimeout, longer) == Some(next)
    ensures next.threads == s.threads[a.t := pc] && next.shared == shared
    ensures Occurrences(next.log, IsOverwrite) == Occurrences(s.log, IsOverwrite) + overwrites
  {
    longer, next := actions + [a], Next(s, a);
    assert longer[..|actions|] == actions;
    RecordsCounted(s, a, IsOverwrite);
  }
}
