/** idlewatch/instance.go, idleWatcher: one remembered instant stands for the whole history of polls. */
module IdleTimer {
  import opened Wrappers

  datatype WakeState = Asleep | Waking | Awake

  /** PlayerCount's answer. */
  datatype Count = Failed | Players(n: int)

  /** One turn of the loop: the count obtained, and the clock when the turn read it. */
  datatype Poll = Poll(count: Count, now: int)

  predicate Idle(p: Poll) {
    p.count.Players? && p.count.n <= 0
  }

  // ----- The specification over the whole history -----

  /** Where the maximal run of idle polls that ends at k began. */
  function RunStart(polls: seq<Poll>, k: nat): (j: nat)
    requires k < |polls| && Idle(polls[k])
    ensures j <= k && forall i :: j <= i <= k ==> Idle(polls[i])
    ensures j > 0 ==> !Idle(polls[j - 1])
    decreases k
  {
    if k == 0 || !Idle(polls[k - 1]) then k else RunStart(polls, k - 1)
  }

  /** Poll k is not the first of its idle run, and the run has lasted long enough. */
  predicate Due(polls: seq<Poll>, timeout: int, k: nat)
    requires k < |polls|
  {
    && Idle(polls[k])
    && RunStart(polls, k) < k
    && polls[k].now - polls[RunStart(polls, k)].now >= timeout
  }

  predicate NoneDue(polls: seq<Poll>, timeout: int, n: nat)
    requires n <= |polls|
  {
    forall k :: 0 <= k < n ==> !Due(polls, timeout, k)
  }

  // ----- What the loop keeps -----

  datatype Verdict = Keep(idleSince: Option<int>) | Stop

  /** One turn of the loop; None is the zero time. */
  function Decide(idleSince: Option<int>, p: Poll, timeout: int): Verdict {
    if !Idle(p) then Keep(None)
    else if idleSince.None? then Keep(Some(p.now))
    else if p.now - idleSince.value >= timeout then Stop
    else Keep(idleSince)
  }

  /** After n polls the remembered instant is the first poll of the current idle run. */
  function Summary(polls: seq<Poll>, n: nat): Option<int>
    requires n <= |polls|
  {
    if n == 0 || !Idle(polls[n - 1]) then None else Some(polls[RunStart(polls, n - 1)].now)
  }

  /** Deciding from the summary is deciding from the history. */
  lemma DecideRefinesHistory(polls: seq<Poll>, timeout: int, k: nat)
    requires k < |polls|
    ensures var v := Decide(Summary(polls, k), polls[k], timeout);
            && (v == Stop <==> Due(polls, timeout, k))
            && (v != Stop ==> v == Keep(Summary(polls, k + 1)))
  {
    if Idle(polls[k]) && k > 0 && Idle(polls[k - 1]) {
      assert RunStart(polls, k) == RunStart(polls, k - 1);
    }
  }

  lemma {:induction false} RunStartOfLonger(polls: seq<Poll>, more: seq<Poll>, k: nat)
    requires k < |polls| && Idle(polls[k])
    ensures RunStart(polls + more, k) == RunStart(polls, k)
    decreases k
  {
    if k > 0 && Idle(polls[k - 1]) {
      RunStartOfLonger(polls, more, k - 1);
    }
  }

  /** Later polls change neither the summary nor what was due. */
  lemma LaterPollsDoNotMatter(polls: seq<Poll>, more: seq<Poll>, timeout: int)
    ensures Summary(polls + more, |polls|) == Summary(polls, |polls|)
    ensures forall k: nat | k < |polls| :: Due(polls + more, timeout, k) == Due(polls, timeout, k)
  {
    forall k: nat | k < |polls|
      ensures Idle(polls[k]) ==> RunStart(polls + more, k) == RunStart(polls, k)
      ensures Due(polls + more, timeout, k) == Due(polls, timeout, k)
    {
      if Idle(polls[k]) {
        RunStartOfLonger(polls, more, k);
      }
    }
  }

  // ----- The loop -----

  /** What one turn meets: the state read under the lock, then the poll. */
  datatype Turn = Turn(state: WakeState, poll: Poll)

  datatype Outcome = StillWatching | Exited(turn: nat) | Stopped(turn: nat)

  function Polls(turns: seq<Turn>): (ps: seq<Poll>)
    ensures |ps| == |turns| && forall i :: 0 <= i < |turns| ==> ps[i] == turns[i].poll
  {
    seq(|turns|, i requires 0 <= i < |turns| => turns[i].poll)
  }

  predicate AwakeUpTo(turns: seq<Turn>, n: nat)
    requires n <= |turns|
  {
    forall i :: 0 <= i < n ==> turns[i].state == Awake
  }

  /** The watcher over any finite stretch of turns: Stop is issued at the first due poll, and at no other. */
  method IdleWatcher(turns: seq<Turn>, idleTimeout: int) returns (outcome: Outcome)
    ensures outcome == StillWatching <==> AwakeUpTo(turns, |turns|) && NoneDue(Polls(turns), idleTimeout, |turns|)
    ensures outcome.Exited? ==>
      && outcome.turn < |turns| && turns[outcome.turn].state != Awake
      && AwakeUpTo(turns, outcome.turn) && NoneDue(Polls(turns), idleTimeout, outcome.turn)
    ensures outcome.Stopped? ==>
      && outcome.turn < |turns| && AwakeUpTo(turns, outcome.turn + 1)
      && NoneDue(Polls(turns), idleTimeout, outcome.turn) && Due(Polls(turns), idleTimeout, outcome.turn)
  {
    var idleSince: Option<int> := None;
    var k := 0;
    while k < |turns|
      invariant 0 <= k <= |turns|
      invariant AwakeUpTo(turns, k) && NoneDue(Polls(turns), idleTimeout, k)
      invariant idleSince == Summary(Polls(turns), k)
    {
      DecideRefinesHistory(Polls(turns), idleTimeout, k);
      var turn := turns[k];
      k := k + 1;
      if turn.state != Awake {
        return Exited(k - 1);
      }
      var p := turn.poll;
      if p.count.Failed? {
        idleSince := None;
        continue;
      }
      if p.count.n > 0 {
        idleSince := None;
        continue;
      }
      if idleSince == None {
        idleSince := Some(p.now);
        continue;
      }
      if p.now - idleSince.value >= idleTimeout {
        return Stopped(k - 1);
      }
    }
    outcome := StillWatching;
  }

  // ----- How soon the stop comes -----

  /** The first due poll of a run that stays idle is at most one gap past the deadline. */
  lemma StopsInTime(polls: seq<Poll>, timeout: nat, gap: nat, j: nat) returns (k: nat)
    requires j < |polls| - 1 && (j > 0 ==> !Idle(polls[j - 1]))
    requires forall i :: j <= i < |polls| ==> Idle(polls[i])
    requires forall i :: j <= i < |polls| - 1 ==> polls[i + 1].now - polls[i].now <= gap
    requires polls[|polls| - 1].now - polls[j].now >= timeout
    ensures j < k < |polls| && Due(polls, timeout, k)
    ensures polls[k].now <= polls[j].now + timeout + gap
    ensures forall i :: j <= i < k ==> !Due(polls, timeout, i)
  {
    RunStartIs(polls, j, j);
    k := j + 1;
    RunStartIs(polls, j, k);
    while !Due(polls, timeout, k)
      invariant j < k < |polls| && RunStart(polls, k) == j
      invariant k > j + 1 ==> polls[k - 1].now - polls[j].now < timeout
      invariant forall i :: j <= i < k ==> !Due(polls, timeout, i)
      decreases |polls| - k
    {
      k := k + 1;
      RunStartIs(polls, j, k);
    }
  }

  lemma {:induction false} RunStartIs(polls: seq<Poll>, j: nat, k: nat)
    requires j <= k < |polls| && (j > 0 ==> !Idle(polls[j - 1]))
    requires forall i :: j <= i <= k ==> Idle(polls[i])
    ensures RunStart(polls, k) == j
    decreases k
  {
    if k > j {
      RunStartIs(polls, j, k - 1);
    }
  }
}
