/** The instance of idlewatch/instance.go driven through the steps of the machine. */
module InstanceRuns {
  import opened Wrappers
  import opened IdleTimer
  import opened IdleInstance
  import opened WakeMachine

  /** One step of goroutine a.t, taken on the instance itself: its fields end as the machine says, and where the
      goroutine goes on is decided by what the lock section gave it. */
  method Perform(inst: Instance, s: Sys, a: Action) returns (pc: Pc)
    requires inst.Fields() == s.shared && Enabled(s, a)
    modifies inst
    ensures inst.Fields() == NextShared(s, a) && pc == NextPc(s, a)
  {
    match a {
      case Accept(_) =>
        pc := Connected;
      case ReadState(_) =>
        var state, since := inst.Snapshot();
        if state == Awake {
          pc := Dialing;
        } else if state == Waking {
          pc := Kicking(since);
        } else {
          pc := Greeting;
        }
      case Dialed(_, ok) =>
        pc := if ok then Gone else Resyncing;
      case Answered(t, login) =>
        pc := if login && s.threads[t].Greeting? then Entering else Gone;
      case EnterWake(_, now) =>
        var won := inst.TryBeginWaking(now);
        pc := if won then Starting else Gone;
      case CallStart(_) =>
        pc := AwaitingBackend;
      case Waited(_, up) =>
        pc := if up then ComingUp else GivingUp;
      case WriteAsleep(t) =>
        inst.FallAsleep();
        pc := if s.threads[t].Resyncing? then Greeting else Gone;
      case WriteAwake(_) =>
        inst.ComeUp();
        pc := Spawning;
      case Spawn(_, _) =>
        pc := Gone;
      case ReadPoll(t) =>
        var state, _ := inst.Snapshot();
        pc := if state == Awake then Counting(s.threads[t].idleSince) else Gone;
      case CountPlayers(t, p) =>
        match Decide(s.threads[t].idleSince, p, s.idleTimeout) {
          case Keep(since) => pc := Polling(since);
          case Stop => pc := Stopping;
        }
      case StopCalled(_) =>
        pc := PuttingToSleep;
    }
  }

  /** Every run of the machine is a run of a new instance, and leaves its fields as the machine's shared state. */
  method Replay(idleTimeout: int, actions: seq<Action>) returns (inst: Instance, threads: map<Tid, Pc>)
    requires Run(idleTimeout, actions).Some?
    ensures var s := Run(idleTimeout, actions).value; inst.Fields() == s.shared && threads == s.threads
  {
    inst := new Instance();
    threads := map[];
    ghost var s := Init(idleTimeout);
    var log: seq<Event> := [];
    for n := 0 to |actions|
      invariant Run(idleTimeout, actions[..n]) == Some(s)
      invariant fresh(inst) && s == Sys(idleTimeout, inst.Fields(), threads, log)
    {
      RunsSoFar(idleTimeout, actions, n);
      var a := actions[n];
      var sys := Sys(idleTimeout, inst.Fields(), threads, log);
      var pc := Perform(inst, sys, a);
      log := log + Records(sys, a);
      threads := threads[a.t := pc];
      if a.Spawn? {
        threads := threads[a.child := Polling(None)];
      }
      s := Next(s, a);
    }
    assert actions[..|actions|] == actions;
  }

  /** Each prefix of a run is a run, and the next action is enabled after it. */
  lemma {:induction false} RunsSoFar(idleTimeout: int, actions: seq<Action>, n: nat)
    requires Run(idleTimeout, actions).Some? && n < |actions|
    ensures Run(idleTimeout, actions[..n]).Some? && Enabled(Run(idleTimeout, actions[..n]).value, actions[n])
    ensures Run(idleTimeout, actions[..n + 1]) == Some(Next(Run(idleTimeout, actions[..n]).value, actions[n]))
    decreases |actions|
  {
    var last := |actions| - 1;
    assert actions[..last + 1] == actions;
    if n < last {
      RunsSoFar(idleTimeout, actions[..last], n);
      assert actions[..last][..n] == actions[..n] && actions[..last][..n + 1] == actions[..n + 1];
    }
  }
}
