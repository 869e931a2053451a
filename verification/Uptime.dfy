/** internal/gamecontrol/minecraft.go: concurrent Status calls sharing onlineSince. Times are in nanoseconds. */
module Uptime {
  import opened Wrappers

  /** One pass through the lock section: what the dial before it found, and the clock inside it. */
  datatype Look = Look(online: bool, at: int)

  // ----- The specification: the whole history of looks -----

  /** Where the run of online looks that reaches the end of the history begins. */
  function OnlineFrom(looks: seq<Look>): (start: nat)
    ensures start <= |looks|
    ensures forall i :: start <= i < |looks| ==> looks[i].online
    ensures start > 0 ==> !looks[start - 1].online
  {
    var n := |looks|;
    if n == 0 || !looks[n - 1].online then n else OnlineFrom(looks[..n - 1])
  }

  /** The time of the first online look after the last offline one. */
  function OnlineSince(looks: seq<Look>): Option<int> {
    if OnlineFrom(looks) == |looks| then None else Some(looks[OnlineFrom(looks)].at)
  }

  // ----- The lock section -----

  function Observed(since: Option<int>, look: Look): Option<int> {
    if !look.online then None else if since.None? then Some(look.at) else since
  }

  class Controller {
    var onlineSince: Option<int> // None for the zero time
    ghost var looks: seq<Look>

    ghost predicate Valid()
      reads this
    {
      onlineSince == OnlineSince(looks)
    }

    constructor ()
      ensures Valid() && looks == []
    {
      onlineSince := None;
      looks := [];
    }

    /** What the call takes away is never the zero time when it saw the backend online. */
    method Observe(online: bool, now: int) returns (since: Option<int>)
      requires Valid()
      modifies this
      ensures Valid() && looks == old(looks) + [Look(online, now)]
      ensures since == onlineSince == Observed(old(onlineSince), Look(online, now)) && (since.Some? <==> online)
    {
      LookAdds(looks, Look(online, now));
      if online && onlineSince.None? {
        onlineSince := Some(now);
      } else if !online {
        onlineSince := None;
      }
      since := onlineSince;
      looks := looks + [Look(online, now)];
    }
  }

  lemma LookAdds(looks: seq<Look>, look: Look)
    ensures OnlineSince(looks + [look]) == Observed(OnlineSince(looks), look)
  {
    assert (looks + [look])[..|looks|] == looks;
  }

  // ----- Any interleaving of calls -----

  /** A call looks once under the lock, and once it saw the backend online answers with an uptime, any time later. */
  datatype Step = Looks(call: nat, look: Look) | Answers(call: nat, at: int)

  /** What a call took away from its look, the k-th of all. */
  datatype Taken = Taken(k: nat, online: bool, since: Option<int>)

  datatype Report = Report(k: nat, since: Option<int>, at: int, uptimeSec: int)

  datatype State = State(clock: int, looks: seq<Look>, onlineSince: Option<int>, taken: map<nat, Taken>,
                         reports: seq<Report>)

  /** int64(time.Since(since).Seconds()), which truncates; the zero time gives no sensible uptime. */
  function UptimeSec(since: Option<int>, now: int): int {
    if since.None? then -1
    else if now >= since.value then (now - since.value) / 1_000_000_000
    else -((since.value - now) / 1_000_000_000)
  }

  function Time(step: Step): int {
    if step.Looks? then step.look.at else step.at
  }

  predicate Enabled(s: State, step: Step) {
    && s.clock <= Time(step)
    && (step.Looks? ==> step.call !in s.taken)
    && (step.Answers? ==> step.call in s.taken && s.taken[step.call].online)
  }

  function Next(s: State, step: Step): State
    requires Enabled(s, step)
  {
    match step
    case Looks(call, look) =>
      var since := Observed(s.onlineSince, look);
      State(look.at, s.looks + [look], since, s.taken[call := Taken(|s.looks|, look.online, since)], s.reports)
    case Answers(call, at) =>
      var t := s.taken[call];
      s.(clock := at, reports := s.reports + [Report(t.k, t.since, at, UptimeSec(t.since, at))])
  }

  function Run(start: int, steps: seq<Step>): Option<State> {
    if steps == [] then Some(State(start, [], None, map[], [])) else
    var n := |steps| - 1;
    match Run(start, steps[..n])
    case None => None
    case Some(s) => if Enabled(s, steps[n]) then Some(Next(s, steps[n])) else None
  }

  // ----- What holds in every reachable state -----

  predicate SinceOfLook(looks: seq<Look>, k: nat, since: Option<int>) {
    k < |looks| && since == OnlineSince(looks[..k + 1])
  }

  predicate Honest(looks: seq<Look>, r: Report) {
    && SinceOfLook(looks, r.k, r.since) && looks[r.k].online
    && r.uptimeSec == UptimeSec(r.since, r.at) && looks[r.k].at <= r.at
  }

  predicate TakenHonestly(looks: seq<Look>, t: Taken) {
    SinceOfLook(looks, t.k, t.since) && t.online == looks[t.k].online
  }

  predicate LooksInOrder(looks: seq<Look>, clock: int) {
    && (forall i :: 0 <= i < |looks| ==> looks[i].at <= clock)
    && (forall i, j :: 0 <= i < j < |looks| ==> looks[i].at <= looks[j].at)
  }

  predicate ReportsInOrder(reports: seq<Report>, clock: int) {
    && (forall i :: 0 <= i < |reports| ==> reports[i].at <= clock)
    && (forall i, j :: 0 <= i < j < |reports| ==> reports[i].at <= reports[j].at)
  }

  predicate Inv(s: State) {
    && s.onlineSince == OnlineSince(s.looks)
    && (forall call :: call in s.taken ==> TakenHonestly(s.looks, s.taken[call]))
    && (forall r :: r in s.reports ==> Honest(s.looks, r))
    && LooksInOrder(s.looks, s.clock) && ReportsInOrder(s.reports, s.clock)
  }

  lemma KeptByMore(looks: seq<Look>, look: Look, k: nat, since: Option<int>)
    requires SinceOfLook(looks, k, since)
    ensures SinceOfLook(looks + [look], k, since) && (looks + [look])[k] == looks[k]
  {
    assert (looks + [look])[..k + 1] == looks[..k + 1];
  }

  lemma OrderGrows(looks: seq<Look>, look: Look, clock: int)
    requires LooksInOrder(looks, clock) && clock <= look.at
    ensures LooksInOrder(looks + [look], look.at)
  {
  }

  lemma LookStep(s: State, call: nat, look: Look)
    requires Inv(s) && Enabled(s, Looks(call, look))
    ensures Inv(Next(s, Looks(call, look)))
  {
    var next := Next(s, Looks(call, look));
    LookAdds(s.looks, look);
    assert next.looks[..|s.looks| + 1] == next.looks;
    OrderGrows(s.looks, look, s.clock);
    forall other | other in s.taken
      ensures TakenHonestly(next.looks, s.taken[other])
    {
      KeptByMore(s.looks, look, s.taken[other].k, s.taken[other].since);
    }
    forall r | r in s.reports
      ensures Honest(next.looks, r)
    {
      KeptByMore(s.looks, look, r.k, r.since);
    }
  }

  lemma AnswerStep(s: State, call: nat, at: int)
    requires Inv(s) && Enabled(s, Answers(call, at))
    ensures Inv(Next(s, Answers(call, at)))
  {
    assert TakenHonestly(s.looks, s.taken[call]);
  }

  lemma {:induction false} InvHolds(start: int, steps: seq<Step>)
    requires Run(start, steps).Some?
    ensures Inv(Run(start, steps).value)
  {
    if steps == [] {
    } else {
      var n := |steps| - 1;
      InvHolds(start, steps[..n]);
      match steps[n]
      case Looks(call, look) => LookStep(Run(start, steps[..n]).value, call, look);
      case Answers(call, at) => AnswerStep(Run(start, steps[..n]).value, call, at);
    }
  }

  // ----- The theorems -----

  lemma ReportOk(s: State, i: nat)
    requires Inv(s) && i < |s.reports|
    ensures Honest(s.looks, s.reports[i])
  {
  }

  lemma ReportedBefore(reports: seq<Report>, clock: int, i: nat, j: nat)
    requires ReportsInOrder(reports, clock) && i < j < |reports|
    ensures reports[i].at <= reports[j].at
  {
  }

  lemma LookedBefore(looks: seq<Look>, clock: int, j: nat, k: nat)
    requires LooksInOrder(looks, clock) && j <= k < |looks|
    ensures looks[j].at <= looks[k].at
  {
  }

  /** onlineSince is always the time of the first online look, in lock order, after the last offline one. */
  lemma {:induction false} TracksOnlineRun(start: int, steps: seq<Step>)
    requires Run(start, steps).Some?
    ensures var s := Run(start, steps).value; s.onlineSince == OnlineSince(s.looks)
    ensures var s := Run(start, steps).value; s.onlineSince.Some? <==> s.looks != [] && s.looks[|s.looks| - 1].online
  {
    InvHolds(start, steps);
  }

  /** Looks j to k all saw the backend online, and the one before j, if any, did not. */
  ghost predicate RunBegan(looks: seq<Look>, j: nat, k: nat) {
    && j <= k < |looks| && (forall m :: j <= m <= k ==> looks[m].online)
    && (j > 0 ==> !looks[j - 1].online)
  }

  lemma SinceIsRunStart(looks: seq<Look>, k: nat)
    requires k < |looks| && looks[k].online
    ensures var j := OnlineFrom(looks[..k + 1]);
            RunBegan(looks, j, k) && OnlineSince(looks[..k + 1]) == Some(looks[j].at)
  {
    var upTo := looks[..k + 1];
    var j := OnlineFrom(upTo);
    assert upTo[k].online;
    assert j > 0 ==> upTo[j - 1] == looks[j - 1];
    forall m | j <= m <= k
      ensures looks[m].online
    {
      assert upTo[m] == looks[m];
    }
  }

  /** No answer counts from the zero time or from the future: it is the whole seconds since the start of the run its
      look fell in. */
  lemma CountsFromARealStart(start: int, steps: seq<Step>, i: nat)
    requires Run(start, steps).Some? && i < |Run(start, steps).value.reports|
    ensures var s := Run(start, steps).value; var r := s.reports[i];
            exists j: nat :: RunBegan(s.looks, j, r.k) && r.since == Some(s.looks[j].at)
              && r.uptimeSec * 1_000_000_000 <= r.at - s.looks[j].at < (r.uptimeSec + 1) * 1_000_000_000
    ensures Run(start, steps).value.reports[i].uptimeSec >= 0
  {
    InvHolds(start, steps);
    CountsFrom(Run(start, steps).value, i);
  }

  lemma CountsFrom(s: State, i: nat)
    requires Inv(s) && i < |s.reports|
    ensures var r := s.reports[i];
            exists j: nat :: RunBegan(s.looks, j, r.k) && r.since == Some(s.looks[j].at)
              && r.uptimeSec * 1_000_000_000 <= r.at - s.looks[j].at < (r.uptimeSec + 1) * 1_000_000_000
    ensures s.reports[i].uptimeSec >= 0
  {
    var r := s.reports[i];
    ReportOk(s, i);
    SinceIsRunStart(s.looks, r.k);
    var j := OnlineFrom(s.looks[..r.k + 1]);
    LookedBefore(s.looks, s.clock, j, r.k);
    WholeSeconds(r.since, r.at);
  }

  /** The whole seconds that have passed. */
  lemma {:induction false} WholeSeconds(since: Option<int>, now: int)
    requires since.Some? && since.value <= now
    ensures var sec := UptimeSec(since, now);
            0 <= sec && sec * 1_000_000_000 <= now - since.value < (sec + 1) * 1_000_000_000
  {
  }

  /** No offline look separates the two. */
  ghost predicate SameRun(looks: seq<Look>, k: nat, m: nat) {
    && k < |looks| && m < |looks|
    && forall i :: (k <= i <= m || m <= i <= k) ==> looks[i].online
  }

  lemma {:induction false} OneStart(looks: seq<Look>, k: nat, m: nat)
    requires k <= m < |looks| && SameRun(looks, k, m)
    ensures OnlineSince(looks[..k + 1]) == OnlineSince(looks[..m + 1])
    decreases m
  {
    if k < m {
      OneStart(looks, k, m - 1);
      assert looks[..m + 1] == looks[..m] + [looks[m]];
      LookAdds(looks[..m], looks[m]);
      assert looks[..m][|looks[..m]| - 1].online;
    }
  }

  lemma OneStartEither(looks: seq<Look>, k: nat, m: nat)
    requires SameRun(looks, k, m)
    ensures OnlineSince(looks[..k + 1]) == OnlineSince(looks[..m + 1])
  {
    if k <= m {
      OneStart(looks, k, m);
    } else {
      OneStart(looks, m, k);
    }
  }

  /** Answers of one online run, in the order they were given, never go back, whichever calls looked first. */
  lemma UptimesNeverDecrease(start: int, steps: seq<Step>, i: nat, j: nat)
    requires Run(start, steps).Some? && i < j < |Run(start, steps).value.reports|
    requires var s := Run(start, steps).value; SameRun(s.looks, s.reports[i].k, s.reports[j].k)
    ensures Run(start, steps).value.reports[i].uptimeSec <= Run(start, steps).value.reports[j].uptimeSec
  {
    InvHolds(start, steps);
    SameStart(Run(start, steps).value, i, j);
    var a, b := Run(start, steps).value.reports[i], Run(start, steps).value.reports[j];
    LaterIsMore(a.since, a.at, b.at);
  }

  lemma SameStart(s: State, i: nat, j: nat)
    requires Inv(s) && i < j < |s.reports| && SameRun(s.looks, s.reports[i].k, s.reports[j].k)
    ensures s.reports[i].since == s.reports[j].since && s.reports[i].at <= s.reports[j].at
    ensures var a, b := s.reports[i], s.reports[j];
            a.uptimeSec == UptimeSec(a.since, a.at) && b.uptimeSec == UptimeSec(b.since, b.at)
  {
    var a, b := s.reports[i], s.reports[j];
    ReportOk(s, i);
    ReportOk(s, j);
    ReportedBefore(s.reports, s.clock, i, j);
    OneStartEither(s.looks, a.k, b.k);
  }

  lemma LaterIsMore(since: Option<int>, now: int, later: int)
    requires now <= later
    ensures UptimeSec(since, now) <= UptimeSec(since, later)
  {
  }

  // ----- Which step each report answers -----

  function LooksOf(steps: seq<Step>): seq<Look> {
    if steps == [] then [] else
    var n := |steps| - 1;
    if steps[n].Looks? then LooksOf(steps[..n]) + [steps[n].look] else LooksOf(steps[..n])
  }

  function AnswersIn(steps: seq<Step>): nat {
    if steps == [] then 0 else AnswersIn(steps[..|steps| - 1]) + if steps[|steps| - 1].Answers? then 1 else 0
  }

  /** k is the place, in lock order, of the look that this call made. */
  ghost predicate LookedAs(steps: seq<Step>, call: nat, k: nat) {
    exists m: nat :: m < |steps| && steps[m].Looks? && steps[m].call == call && k == |LooksOf(steps[..m])|
  }

  ghost predicate InStep(steps: seq<Step>, s: State) {
    && s.looks == LooksOf(steps) && |s.reports| == AnswersIn(steps)
    && forall call :: call in s.taken ==> LookedAs(steps, call, s.taken[call].k)
  }

  lemma {:induction false} LookedStays(steps: seq<Step>, step: Step, call: nat, k: nat)
    requires LookedAs(steps, call, k)
    ensures LookedAs(steps + [step], call, k)
  {
    var m: nat :| m < |steps| && steps[m].Looks? && steps[m].call == call && k == |LooksOf(steps[..m])|;
    assert (steps + [step])[..m] == steps[..m] && (steps + [step])[m] == steps[m];
  }

  lemma {:induction false} InStepNext(steps: seq<Step>, s: State, step: Step)
    requires InStep(steps, s) && Enabled(s, step)
    ensures InStep(steps + [step], Next(s, step))
  {
    var more := steps + [step];
    assert more[..|steps|] == steps && more[|steps|] == step;
    forall call | call in Next(s, step).taken
      ensures LookedAs(more, call, Next(s, step).taken[call].k)
    {
      if step.Looks? && call == step.call {
        assert more[|steps|].call == call && |s.looks| == |LooksOf(more[..|steps|])|;
      } else {
        LookedStays(steps, step, call, s.taken[call].k);
      }
    }
  }

  lemma {:induction false} InStepHolds(start: int, steps: seq<Step>)
    requires Run(start, steps).Some?
    ensures InStep(steps, Run(start, steps).value)
  {
    if steps != [] {
      var n := |steps| - 1;
      InStepHolds(start, steps[..n]);
      InStepNext(steps[..n], Run(start, steps[..n]).value, steps[n]);
      assert steps[..n] + [steps[n]] == steps;
    }
  }

  /** The report of an answer is the last one then, carries the time of the answer, and counts for the look that the
      same call made. */
  lemma {:induction false} AnswerReported(start: int, steps: seq<Step>, call: nat, at: int)
    requires Run(start, steps + [Answers(call, at)]).Some?
    ensures var s := Run(start, steps + [Answers(call, at)]).value;
            && |s.reports| == AnswersIn(steps) + 1
            && s.reports[|s.reports| - 1].at == at && LookedAs(steps, call, s.reports[|s.reports| - 1].k)
            && s.looks == LooksOf(steps)
  {
    var more := steps + [Answers(call, at)];
    assert more[..|steps|] == steps && more[|steps|] == Answers(call, at);
    InStepHolds(start, steps);
  }
}
