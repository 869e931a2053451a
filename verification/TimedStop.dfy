/** maintenance/maintenance.go and the waits of idlewatch/instance.go: polling against a deadline.
    Times are in milliseconds; a blocking call takes any time up to its own limit, all else is instant. */
module TimedStop {
  const PROBE_LIMIT := 2_000       // net.DialTimeout in backendReachable
  const READY_INTERVAL := 300
  const DOWN_INTERVAL := 2_000
  const RCON_LIMIT := 5_000        // rcon.Dial's timeout: for the dial, for the auth, for each command
  const STOP_POLL_TIMEOUT := 60_000
  const STOP_POLL_INTERVAL := 2_000
  const ACTION_TIMEOUT := 90_000   // the gateway gives up on a stop after this long

  /** One dial of the backend port. */
  datatype Probe = Probe(duration: nat, up: bool)

  ghost predicate Within(probes: nat -> Probe, limit: nat) {
    forall i: nat :: probes(i).duration <= limit
  }

  /** When the i-th probe begins: each earlier one took its time and was followed by a sleep. */
  function Begins(probes: nat -> Probe, start: nat, interval: nat, i: nat): nat {
    if i == 0 then start else Begins(probes, start, interval, i - 1) + probes(i - 1).duration + interval
  }

  /** Probing on, the clock gets past any timeout of this length in the end, however short the sleeps are. */
  ghost predicate TimePasses(probes: nat -> Probe, timeout: nat, interval: nat) {
    exists n: nat :: Begins(probes, 0, interval, n) >= timeout
  }

  lemma {:induction false} BeginsFrom(probes: nat -> Probe, start: nat, interval: nat, n: nat)
    ensures Begins(probes, start, interval, n) == start + Begins(probes, 0, interval, n)
  {
    if n > 0 {
      BeginsFrom(probes, start, interval, n - 1);
    }
  }

  lemma LastProbe(probes: nat -> Probe, start: nat, timeout: nat, interval: nat) returns (n: nat)
    requires TimePasses(probes, timeout, interval)
    ensures Begins(probes, start, interval, n) >= start + timeout
  {
    n :| Begins(probes, 0, interval, n) >= timeout;
    BeginsFrom(probes, start, interval, n);
  }

  /** With a sleep between probes it always does. */
  lemma SleepsPass(probes: nat -> Probe, timeout: nat, interval: nat)
    requires interval > 0
    ensures TimePasses(probes, timeout, interval)
  {
    AtLeastSleeps(probes, interval, timeout);
  }

  lemma {:induction false} AtLeastSleeps(probes: nat -> Probe, interval: nat, n: nat)
    requires interval > 0
    ensures Begins(probes, 0, interval, n) >= n
  {
    if n > 0 {
      AtLeastSleeps(probes, interval, n - 1);
    }
  }

  datatype PollEnd = PollEnd(found: bool, made: nat, end: nat)

  predicate NoneSaw(probes: nat -> Probe, up: bool, n: nat) {
    forall i: nat :: i < n ==> probes(i).up != up
  }

  /** What a polling loop that waits for the port to be `up` (or not) does: its probes begin before the
      deadline, and the last of them alone sees what was waited for. */
  predicate Polled(probes: nat -> Probe, up: bool, start: nat, timeout: nat, interval: nat, p: PollEnd) {
    && (p.made > 0 ==> Begins(probes, start, interval, p.made - 1) < start + timeout)
    && if p.found then
         && p.made > 0 && probes(p.made - 1).up == up && NoneSaw(probes, up, p.made - 1)
         && p.end == Begins(probes, start, interval, p.made - 1) + probes(p.made - 1).duration
       else
         && NoneSaw(probes, up, p.made)
         && p.end == Begins(probes, start, interval, p.made) >= start + timeout
  }

  lemma NotYet(probes: nat -> Probe, start: nat, interval: nat, i: nat, n: nat)
    requires Begins(probes, start, interval, i) < Begins(probes, start, interval, n)
    ensures i < n
  {
    if n <= i {
      BeginsInOrder(probes, start, interval, n, i);
    }
  }

  method WaitUntilBackendDown(probes: nat -> Probe, start: nat, timeout: nat, pollInterval: nat) returns (p: PollEnd)
    requires TimePasses(probes, timeout, pollInterval)
    ensures Polled(probes, false, start, timeout, pollInterval, p)
  {
    var now, i := start, 0;
    var deadline := now + timeout;
    ghost var n: int := LastProbe(probes, start, timeout, pollInterval);
    while now < deadline
      invariant now == Begins(probes, start, pollInterval, i)
      invariant (i > 0 ==> Begins(probes, start, pollInterval, i - 1) < deadline) && NoneSaw(probes, false, i)
      decreases n - i
    {
      NotYet(probes, start, pollInterval, i, n);
      var probe := probes(i);
      now := now + probe.duration;
      i := i + 1;
      if !probe.up {
        return PollEnd(true, i, now);
      }
      now := now + pollInterval;
    }
    return PollEnd(false, i, now);
  }

  method WaitForBackend(probes: nat -> Probe, start: nat, readyTimeout: nat) returns (p: PollEnd)
    ensures Polled(probes, true, start, readyTimeout, 300, p)
  {
    var now, i := start, 0;
    var deadline := now + readyTimeout;
    while now < deadline
      invariant now == Begins(probes, start, READY_INTERVAL, i)
      invariant (i > 0 ==> Begins(probes, start, READY_INTERVAL, i - 1) < deadline) && NoneSaw(probes, true, i)
      decreases deadline - now
    {
      var probe := probes(i);
      now := now + probe.duration;
      i := i + 1;
      if probe.up {
        return PollEnd(true, i, now);
      }
      now := now + READY_INTERVAL;
    }
    return PollEnd(false, i, now);
  }

  method WaitForBackendDown(probes: nat -> Probe, start: nat, timeout: nat) returns (p: PollEnd)
    ensures Polled(probes, false, start, timeout, 2_000, p)
  {
    var now, i := start, 0;
    var deadline := now + timeout;
    while now < deadline
      invariant now == Begins(probes, start, DOWN_INTERVAL, i)
      invariant (i > 0 ==> Begins(probes, start, DOWN_INTERVAL, i - 1) < deadline) && NoneSaw(probes, false, i)
      decreases deadline - now
    {
      var probe := probes(i);
      now := now + probe.duration;
      i := i + 1;
      if !probe.up {
        return PollEnd(true, i, now);
      }
      now := now + DOWN_INTERVAL;
    }
    return PollEnd(false, i, now);
  }

  // ----- What polling promises -----

  lemma {:induction false} BeginsInOrder(probes: nat -> Probe, start: nat, interval: nat, i: nat, j: nat)
    requires i <= j
    ensures Begins(probes, start, interval, i) <= Begins(probes, start, interval, j)
    decreases j
  {
    if i < j {
      BeginsInOrder(probes, start, interval, i, j - 1);
    }
  }

  /** A poll succeeds exactly when some probe begun before the deadline sees what was waited for. */
  lemma FoundExactly(probes: nat -> Probe, up: bool, start: nat, timeout: nat, interval: nat, p: PollEnd)
    requires Polled(probes, up, start, timeout, interval, p)
    ensures p.found <==> exists i: nat :: Begins(probes, start, interval, i) < start + timeout && probes(i).up == up
  {
    if p.found {
      assert Begins(probes, start, interval, p.made - 1) < start + timeout && probes(p.made - 1).up == up;
    } else if i: nat :| Begins(probes, start, interval, i) < start + timeout && probes(i).up == up {
      assert i >= p.made;
      BeginsInOrder(probes, start, interval, p.made, i);
    }
  }

  /** And it ends before deadline + one probe + one sleep; one that succeeds, before deadline + one probe. */
  lemma EndsInTime(probes: nat -> Probe, up: bool, start: nat, timeout: nat, interval: nat, p: PollEnd, limit: nat)
    requires Polled(probes, up, start, timeout, interval, p) && Within(probes, limit) && limit + interval > 0
    ensures start <= p.end < start + timeout + limit + interval
    ensures p.found ==> p.end < start + timeout + limit
  {
    BeginsInOrder(probes, start, interval, 0, p.made);
    if p.made > 0 {
      BeginsInOrder(probes, start, interval, 0, p.made - 1);
      assert probes(p.made - 1).duration <= limit;
    }
  }

  // ----- Stop -----

  /** Dial, authentication and command, each cut off by its own deadline. */
  datatype RconCall = RconCall(dial: nat, dialOk: bool, auth: nat, authOk: bool, command: nat, commandOk: bool)

  predicate WithinDeadlines(c: RconCall) {
    c.dial <= RCON_LIMIT && c.auth <= RCON_LIMIT && c.command <= RCON_LIMIT
  }

  /** When the call ends: at the first of its three steps that fails, or after the third. */
  function CallEnds(c: RconCall, start: nat): nat {
    start + c.dial + if c.dialOk then c.auth + (if c.authOk then c.command else 0) else 0
  }

  method TrySendStopCommand(c: RconCall, start: nat) returns (ok: bool, end: nat)
    requires WithinDeadlines(c)
    ensures ok <==> c.dialOk && c.authOk && c.commandOk
    ensures end == CallEnds(c, start) && start <= end <= start + 15_000
  {
    end := start + c.dial;
    if !c.dialOk {
      return false, end;
    }
    end := end + c.auth;
    if !c.authOk {
      return false, end;
    }
    end := end + c.command;
    ok := c.commandOk;
  }

  datatype Decision = AlreadyStopped | StoppedCleanly | ForceKill

  /** Some probe begun within pollTimeout of an accepted stop command found the port closed. */
  ghost predicate WentDown(probes: nat -> Probe, sentAt: nat, pollTimeout: nat, pollInterval: nat) {
    exists i: nat :: Begins(probes, sentAt, pollInterval, i) < sentAt + pollTimeout && !probes(i).up
  }

  predicate Accepted(first: Probe, hasRcon: bool, rcon: RconCall) {
    first.up && hasRcon && rcon.dialOk && rcon.authOk && rcon.commandOk
  }

  /** Up to the decision; the force-kill itself is outside the model. hasRcon tells whether RCON is configured. */
  method StopWithTimeout(first: Probe, hasRcon: bool, rcon: RconCall, probes: nat -> Probe,
                         start: nat, pollTimeout: nat, pollInterval: nat)
    returns (decision: Decision, decidedAt: nat, sentAt: nat)
    requires first.duration <= PROBE_LIMIT && WithinDeadlines(rcon) && Within(probes, PROBE_LIMIT)
    requires TimePasses(probes, pollTimeout, pollInterval)
    ensures decision == AlreadyStopped <==> !first.up
    ensures decision == StoppedCleanly <==>
      && first.up && hasRcon && rcon.dialOk && rcon.authOk && rcon.commandOk
      && WentDown(probes, sentAt, pollTimeout, pollInterval)
    ensures start <= decidedAt < start + PROBE_LIMIT + 3 * RCON_LIMIT + (pollTimeout + PROBE_LIMIT + pollInterval)
    ensures sentAt ==
      if first.up && hasRcon then CallEnds(rcon, start + first.duration) else start + first.duration
    ensures !Accepted(first, hasRcon, rcon) ==> decidedAt == sentAt
    ensures Accepted(first, hasRcon, rcon) ==>
      exists p :: Polled(probes, false, sentAt, pollTimeout, pollInterval, p) && decidedAt == p.end
  {
    var now := start + first.duration;
    sentAt := now;
    if !first.up {
      return AlreadyStopped, now, sentAt;
    }
    var cleanStopWorked := false;
    if hasRcon {
      var ok;
      ok, now := TrySendStopCommand(rcon, now);
      sentAt := now;
      if ok {
        var poll := WaitUntilBackendDown(probes, now, pollTimeout, pollInterval);
        FoundExactly(probes, false, now, pollTimeout, pollInterval, poll);
        EndsInTime(probes, false, now, pollTimeout, pollInterval, poll, PROBE_LIMIT);
        now := poll.end;
        if poll.found {
          cleanStopWorked := true;
        }
      }
    }
    if cleanStopWorked {
      return StoppedCleanly, now, sentAt;
    }
    return ForceKill, now, sentAt;
  }

  /** With the production timings: clean exactly when the command was accepted and some probe begun within 60 s of it
      found the port closed, and decided inside the gateway's patience. */
  method Stop(first: Probe, hasRcon: bool, rcon: RconCall, probes: nat -> Probe, start: nat)
    returns (decision: Decision, decidedAt: nat, sentAt: nat)
    requires first.duration <= 2_000 && (forall i: nat :: probes(i).duration <= 2_000)
    requires rcon.dial <= 5_000 && rcon.auth <= 5_000 && rcon.command <= 5_000
    ensures decidedAt - start < 81_000 < ACTION_TIMEOUT == 90_000
    ensures decision == AlreadyStopped <==> !first.up
    ensures decision == StoppedCleanly <==>
      && first.up && hasRcon && rcon.dialOk && rcon.authOk && rcon.commandOk
      && WentDown(probes, sentAt, 60_000, 2_000)
    ensures sentAt ==
      if first.up && hasRcon then CallEnds(rcon, start + first.duration) else start + first.duration
    ensures !Accepted(first, hasRcon, rcon) ==> decidedAt == sentAt
    ensures Accepted(first, hasRcon, rcon) ==>
      exists p :: Polled(probes, false, sentAt, 60_000, 2_000, p) && decidedAt == p.end
  {
    SleepsPass(probes, STOP_POLL_TIMEOUT, STOP_POLL_INTERVAL);
    decision, decidedAt, sentAt :=
      StopWithTimeout(first, hasRcon, rcon, probes, start, STOP_POLL_TIMEOUT, STOP_POLL_INTERVAL);
  }
}
