/** Every watcher of the machine stops the backend exactly when its own poll history says so. */
module WakeStops {
  import opened Wrappers
  import opened IdleTimer
  import opened IdleInstance
  import opened WakeMachine

  /** The polls one watcher has made, in order. */
  function PollsOf(log: seq<Event>, t: Tid): seq<Poll> {
    if log == [] then [] else
    var n := |log| - 1;
    PollsOf(log[..n], t) + if log[n].Polled? && log[n].t == t then [log[n].poll] else []
  }

  lemma PollsOfNext(s: Sys, a: Action, t: Tid)
    requires Enabled(s, a)
    ensures PollsOf(Next(s, a).log, t) == PollsOf(s.log, t) + if a.CountPlayers? && a.t == t then [a.poll] else []
  {
    var r, log' := Records(s, a), Next(s, a).log;
    if r == [] {
      assert log' == s.log;
      assert PollsOf(s.log, t) + [] == PollsOf(s.log, t);
    } else {
      assert log'[..|log'| - 1] == s.log;
    }
  }

  /** The last poll is the first due one. */
  predicate JustDue(polls: seq<Poll>, timeout: int) {
    polls != [] && Due(polls, timeout, |polls| - 1) && NoneDue(polls, timeout, |polls| - 1)
  }

  /** What a watcher's place says of its polls; pc is None for a goroutine not started yet. */
  predicate TimerOk(timeout: int, pc: Option<Pc>, polls: seq<Poll>, issued: bool) {
    if pc == None then polls == [] && !issued else
    match pc.value
    case Polling(since) => since == Summary(polls, |polls|) && NoneDue(polls, timeout, |polls|) && !issued
    case Counting(since) => since == Summary(polls, |polls|) && NoneDue(polls, timeout, |polls|) && !issued
    case Stopping => JustDue(polls, timeout) && !issued
    case PuttingToSleep => JustDue(polls, timeout) && issued
    case Gone => if issued then JustDue(polls, timeout) else NoneDue(polls, timeout, |polls|)
    case _ => polls == [] && !issued
  }

  function PcOf(s: Sys, t: Tid): Option<Pc> {
    if t in s.threads then Some(s.threads[t]) else None
  }

  predicate TimerKept(s: Sys, t: Tid) {
    TimerOk(s.idleTimeout, PcOf(s, t), PollsOf(s.log, t), StopIssued(t) in s.log)
  }

  lemma ActorMoves(s: Sys, a: Action, polls: seq<Poll>, issued: bool)
    requires Enabled(s, a) && !a.CountPlayers?
    requires TimerOk(s.idleTimeout, PcOf(s, a.t), polls, issued)
    ensures TimerOk(s.idleTimeout, Some(NextPc(s, a)), polls, issued || a.StopCalled?)
  {
  }

  lemma TimerStep(s: Sys, a: Action, t: Tid)
    requires TimerKept(s, t) && Enabled(s, a)
    ensures TimerKept(Next(s, a), t)
  {
    if t != a.t {
      BystanderStep(s, a, t);
    } else if a.CountPlayers? {
      PollCounted(s, a);
      PollsOfNext(s, a, t);
      IssuedNext(s, a, t);
    } else {
      ActorStep(s, a);
    }
  }

  lemma IssuedNext(s: Sys, a: Action, t: Tid)
    requires Enabled(s, a)
    ensures StopIssued(t) in Next(s, a).log <==> StopIssued(t) in s.log || (a.StopCalled? && a.t == t)
    ensures PcOf(Next(s, a), a.t) == Some(NextPc(s, a))
  {
    assert StopIssued(t) in Records(s, a) <==> a.StopCalled? && a.t == t;
  }

  lemma ActorStep(s: Sys, a: Action)
    requires TimerKept(s, a.t) && Enabled(s, a) && !a.CountPlayers?
    ensures TimerKept(Next(s, a), a.t)
  {
    PollsOfNext(s, a, a.t);
    IssuedNext(s, a, a.t);
    NothingAdded(PollsOf(s.log, a.t));
    ActorMoves(s, a, PollsOf(s.log, a.t), StopIssued(a.t) in s.log);
  }

  lemma BystanderStep(s: Sys, a: Action, t: Tid)
    requires TimerKept(s, t) && Enabled(s, a) && t != a.t
    ensures TimerKept(Next(s, a), t)
  {
    PollsOfNext(s, a, t);
    IssuedNext(s, a, t);
    NothingAdded(PollsOf(s.log, t));
    assert PcOf(Next(s, a), t) == if a.Spawn? && t == a.child then Some(Polling(None)) else PcOf(s, t);
  }

  lemma NothingAdded(polls: seq<Poll>)
    ensures polls + [] == polls
  {
  }

  lemma PollCounted(s: Sys, a: Action)
    requires a.CountPlayers? && Enabled(s, a) && TimerKept(s, a.t)
    ensures var polls := PollsOf(s.log, a.t) + [a.poll];
            match NextPc(s, a)
            case Polling(since) => since == Summary(polls, |polls|) && NoneDue(polls, s.idleTimeout, |polls|)
            case Stopping => JustDue(polls, s.idleTimeout)
            case _ => false
  {
    var before := PollsOf(s.log, a.t);
    LaterPollsDoNotMatter(before, [a.poll], s.idleTimeout);
    DecideRefinesHistory(before + [a.poll], s.idleTimeout, |before|);
    assert forall k: nat | k < |before| :: !Due(before + [a.poll], s.idleTimeout, k);
  }

  lemma {:induction false} TimerHolds(idleTimeout: int, actions: seq<Action>, t: Tid)
    requires Run(idleTimeout, actions).Some?
    ensures Run(idleTimeout, actions).value.idleTimeout == idleTimeout
    ensures TimerKept(Run(idleTimeout, actions).value, t)
  {
    if actions != [] {
      var n := |actions| - 1;
      TimerHolds(idleTimeout, actions[..n], t);
      TimerStep(Run(idleTimeout, actions[..n]).value, actions[n], t);
    }
  }

  /** In every reachable state a watcher has stopped the backend, or is doing so, exactly when its
      latest poll is due; no earlier poll of its was. */
  lemma StopsExactlyWhenDue(idleTimeout: int, actions: seq<Action>, t: Tid)
    requires Run(idleTimeout, actions).Some?
    ensures var s := Run(idleTimeout, actions).value;
            var polls := PollsOf(s.log, t);
            var stopping := StopIssued(t) in s.log || (t in s.threads && s.threads[t].Stopping?);
            && (stopping <==> JustDue(polls, idleTimeout))
            && (!stopping <==> NoneDue(polls, idleTimeout, |polls|))
  {
    TimerHolds(idleTimeout, actions, t);
  }
}
