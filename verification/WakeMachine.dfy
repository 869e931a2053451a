/** idlewatch/instance.go: any number of handlers, wakes and idle watchers over one instance.
    Every lock section is one atomic step; the environment decides dials, answers and clocks. */
module WakeMachine {
  import opened Wrappers
  import opened IdleTimer
  import opened IdleInstance

  type Tid = nat

  /** Where a goroutine stands: about to do, or in the middle of, what the name says. */
  datatype Pc =
    // handleConn
    | Connected
    | Dialing
    | Resyncing
    | Kicking(since: Option<int>)
    | Greeting
    // wake
    | Entering
    | Starting
    | AwaitingBackend
    | GivingUp
    | ComingUp
    | Spawning
    // idleWatcher
    | Polling(idleSince: Option<int>)
    | Counting(idleSince: Option<int>)
    | Stopping
    | PuttingToSleep
    | Gone

  datatype Cause = Resync | NeverReady | IdleStop

  datatype Event =
    | Saw(t: Tid, state: WakeState)
    | ToWaking(t: Tid)
    | Started(t: Tid)
    | ToAsleep(t: Tid, over: WakeState, cause: Cause)
    | ToAwake(t: Tid, over: WakeState)
    | Polled(t: Tid, poll: Poll)
    | StopIssued(t: Tid)
    | Retired(t: Tid)

  datatype Sys = Sys(idleTimeout: int, shared: Shared, threads: map<Tid, Pc>, log: seq<Event>)

  function Init(idleTimeout: int): Sys {
    Sys(idleTimeout, AT_REST, map[], [])
  }

  datatype Action =
    | Accept(t: Tid)
    | ReadState(t: Tid)
    | Dialed(t: Tid, ok: bool)
    | Answered(t: Tid, login: bool)
    | EnterWake(t: Tid, now: int)
    | CallStart(t: Tid)
    | Waited(t: Tid, up: bool)
    | WriteAsleep(t: Tid)
    | WriteAwake(t: Tid)
    | Spawn(t: Tid, child: Tid)
    | ReadPoll(t: Tid)
    | CountPlayers(t: Tid, poll: Poll)
    | StopCalled(t: Tid)

  predicate Enabled(s: Sys, a: Action) {
    if a.Accept? then a.t !in s.threads else
    a.t in s.threads &&
    var pc := s.threads[a.t];
    match a
    case Accept(_) => false
    case ReadState(_) => pc.Connected?
    case Dialed(_, _) => pc.Dialing?
    case Answered(_, _) => pc.Greeting? || pc.Kicking?
    case EnterWake(_, _) => pc.Entering?
    case CallStart(_) => pc.Starting?
    case Waited(_, _) => pc.AwaitingBackend?
    case WriteAsleep(_) => pc.Resyncing? || pc.GivingUp? || pc.PuttingToSleep?
    case WriteAwake(_) => pc.ComingUp?
    case Spawn(_, child) => pc.Spawning? && child !in s.threads
    case ReadPoll(_) => pc.Polling?
    case CountPlayers(_, _) => pc.Counting?
    case StopCalled(_) => pc.Stopping?
  }

  /** The pc the thread moves to. */
  function NextPc(s: Sys, a: Action): Pc
    requires Enabled(s, a)
  {
    match a
    case Accept(_) => Connected
    case ReadState(_) =>
      (match s.shared.state
       case Awake => Dialing
       case Waking => Kicking(s.shared.wakingSince)
       case Asleep => Greeting)
    case Dialed(_, ok) => if ok then Gone else Resyncing
    case Answered(t, login) => if login && s.threads[t].Greeting? then Entering else Gone
    case EnterWake(_, _) => if s.shared.state == Asleep then Starting else Gone
    case CallStart(_) => AwaitingBackend
    case Waited(_, up) => if up then ComingUp else GivingUp
    case WriteAsleep(t) => if s.threads[t].Resyncing? then Greeting else Gone
    case WriteAwake(_) => Spawning
    case Spawn(_, _) => Gone
    case ReadPoll(t) => if s.shared.state == Awake then Counting(s.threads[t].idleSince) else Gone
    case CountPlayers(t, p) =>
      (match Decide(s.threads[t].idleSince, p, s.idleTimeout)
       case Keep(since) => Polling(since)
       case Stop => Stopping)
    case StopCalled(_) => PuttingToSleep
  }

  function NextShared(s: Sys, a: Action): Shared
    requires Enabled(s, a)
  {
    match a
    case EnterWake(_, now) => WithWakingBegun(s.shared, now)
    case WriteAsleep(_) => AT_REST
    case WriteAwake(_) => Shared(Awake, None)
    case _ => s.shared
  }

  /** What the step adds to the record of the run. */
  function Records(s: Sys, a: Action): seq<Event>
    requires Enabled(s, a)
  {
    match a
    case ReadState(t) => [Saw(t, s.shared.state)]
    case EnterWake(t, _) => if s.shared.state == Asleep then [ToWaking(t)] else []
    case CallStart(t) => [Started(t)]
    case WriteAsleep(t) =>
      var cause := if s.threads[t].Resyncing? then Resync else if s.threads[t].GivingUp? then NeverReady else IdleStop;
      [ToAsleep(t, s.shared.state, cause)]
    case WriteAwake(t) => [ToAwake(t, s.shared.state)]
    case ReadPoll(t) => if s.shared.state == Awake then [] else [Retired(t)]
    case CountPlayers(t, p) => [Polled(t, p)]
    case StopCalled(t) => [StopIssued(t)]
    case _ => []
  }

  function Next(s: Sys, a: Action): Sys
    requires Enabled(s, a)
  {
    var moved := s.threads[a.t := NextPc(s, a)];
    var threads := if a.Spawn? then moved[a.child := Polling(None)] else moved;
    Sys(s.idleTimeout, NextShared(s, a), threads, s.log + Records(s, a))
  }

  /** The state after a run, or None when some action was not enabled. */
  function Run(idleTimeout: int, actions: seq<Action>): Option<Sys> {
    if actions == [] then Some(Init(idleTimeout)) else
    var n := |actions| - 1;
    match Run(idleTimeout, actions[..n])
    case None => None
    case Some(s) => if Enabled(s, actions[n]) then Some(Next(s, actions[n])) else None
  }
}
