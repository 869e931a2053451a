/** startup/startup.go: waiting for the backend to come up, then applying commands with retries. */
module Startup {
  import opened Wrappers

  const DEFAULT_BOOT_PATTERN := "Done ("

  // ----- Waiting for the boot log -----

  /** One os.ReadFile: how long it took, and the text unless it failed. Times are in milliseconds. */
  datatype Reading = Reading(duration: nat, text: Option<string>)

  predicate Contains(text: string, pattern: string) {
    exists i :: 0 <= i <= |text| && pattern <= text[i..]
  }

  predicate Shows(r: Reading, pattern: string) {
    r.text.Some? && Contains(r.text.value, pattern)
  }

  /** When the i-th reading ends: each is followed by a sleep. */
  function Ends(readings: nat -> Reading, start: nat, interval: nat, i: nat): nat {
    (if i == 0 then start else Ends(readings, start, interval, i - 1) + interval) + readings(i).duration
  }

  /** The first reading is always made, another one only while the one before ended by the deadline. */
  predicate Made(readings: nat -> Reading, start: nat, timeout: nat, interval: nat, i: nat) {
    i == 0 || Ends(readings, start, interval, i - 1) <= start + timeout
  }

  /** Reading on, the clock gets past any timeout of this length in the end, however short the sleeps are. */
  ghost predicate TimePasses(readings: nat -> Reading, timeout: nat, interval: nat) {
    exists n: nat :: Ends(readings, 0, interval, n) > timeout
  }

  lemma {:induction false} EndsFrom(readings: nat -> Reading, start: nat, interval: nat, n: nat)
    ensures Ends(readings, start, interval, n) == start + Ends(readings, 0, interval, n)
  {
    if n > 0 {
      EndsFrom(readings, start, interval, n - 1);
    }
  }

  lemma LastReading(readings: nat -> Reading, start: nat, timeout: nat, interval: nat) returns (n: nat)
    requires TimePasses(readings, timeout, interval)
    ensures Ends(readings, start, interval, n) > start + timeout
  {
    n :| Ends(readings, 0, interval, n) > timeout;
    EndsFrom(readings, start, interval, n);
  }

  /** With a sleep between readings it always does. */
  lemma SleepsPass(readings: nat -> Reading, timeout: nat, interval: nat)
    requires interval > 0
    ensures TimePasses(readings, timeout, interval)
  {
    AtLeastSleeps(readings, interval, timeout + 1);
  }

  lemma {:induction false} AtLeastSleeps(readings: nat -> Reading, interval: nat, n: nat)
    requires interval > 0
    ensures Ends(readings, 0, interval, n) >= n
  {
    if n > 0 {
      AtLeastSleeps(readings, interval, n - 1);
    }
  }

  ghost predicate BootSeen(readings: nat -> Reading, pattern: string, start: nat, timeout: nat, interval: nat) {
    exists i: nat :: Made(readings, start, timeout, interval, i) && Shows(readings(i), pattern)
  }

  lemma {:induction false} ContainsExactly(text: string, pattern: string)
    ensures Contains(text, pattern) <==> exists before: string, after: string :: text == before + pattern + after
  {
    if i :| 0 <= i <= |text| && pattern <= text[i..] {
      assert text == text[..i] + pattern + text[i + |pattern|..];
    }
    forall before: string, after: string | text == before + pattern + after
      ensures Contains(text, pattern)
    {
      assert text[|before|..] == pattern + after;
    }
  }

  /** The boot was seen exactly when some reading that is made has the pattern somewhere in its text. */
  lemma {:induction false} BootSeenExactly(readings: nat -> Reading, pattern: string, start: nat, timeout: nat,
                                           interval: nat)
    ensures BootSeen(readings, pattern, start, timeout, interval) <==>
      exists i: nat, before: string, after: string ::
        Made(readings, start, timeout, interval, i) && readings(i).text == Some(before + pattern + after)
  {
    if BootSeen(readings, pattern, start, timeout, interval) {
      var i: nat :| Made(readings, start, timeout, interval, i) && Shows(readings(i), pattern);
      ContainsExactly(readings(i).text.value, pattern);
      var before: string, after: string :| readings(i).text.value == before + pattern + after;
      assert readings(i).text == Some(before + pattern + after);
    }
    forall i: nat, before: string, after: string |
        Made(readings, start, timeout, interval, i) && readings(i).text == Some(before + pattern + after)
      ensures Shows(readings(i), pattern)
    {
      ContainsExactly(before + pattern + after, pattern);
    }
  }

  method WaitForBootLog(readings: nat -> Reading, pattern: string, start: nat, timeout: nat, interval: nat)
    returns (found: bool)
    requires TimePasses(readings, timeout, interval)
    ensures found <==> BootSeen(readings, pattern, start, timeout, interval)
  {
    var deadline := start + timeout;
    var now, i := start, 0;
    ghost var last := LastReading(readings, start, timeout, interval);
    while true
      invariant i <= last
      invariant Made(readings, start, timeout, interval, i)
      invariant now == if i == 0 then start else Ends(readings, start, interval, i - 1) + interval
      invariant forall j: nat :: j < i ==> !Shows(readings(j), pattern)
      decreases last - i
    {
      var reading := readings(i);
      now := now + reading.duration;
      if Shows(reading, pattern) {
        return true;
      }
      if now > deadline {
        NoneLater(readings, start, timeout, interval, i);
        return false;
      }
      NotYet(readings, start, interval, i, last);
      now := now + interval;
      i := i + 1;
    }
  }

  lemma NotYet(readings: nat -> Reading, start: nat, interval: nat, i: nat, n: nat)
    requires Ends(readings, start, interval, i) < Ends(readings, start, interval, n)
    ensures i < n
  {
    if n <= i {
      EndsGrow(readings, start, interval, n, i);
    }
  }

  lemma NoneLater(readings: nat -> Reading, start: nat, timeout: nat, interval: nat, i: nat)
    requires Ends(readings, start, interval, i) > start + timeout
    ensures forall j: nat :: j > i ==> !Made(readings, start, timeout, interval, j)
  {
    forall j: nat | j > i
      ensures !Made(readings, start, timeout, interval, j)
    {
      EndsGrow(readings, start, interval, i, j - 1);
    }
  }

  lemma {:induction false} EndsGrow(readings: nat -> Reading, start: nat, interval: nat, i: nat, j: nat)
    requires i <= j
    ensures Ends(readings, start, interval, i) <= Ends(readings, start, interval, j)
    decreases j
  {
    if i < j {
      EndsGrow(readings, start, interval, i, j - 1);
    }
  }

  // ----- What is sent -----

  /** A send is a fresh dial, authentication and command; ok when all three went well. */
  datatype Event = Probe(cmd: string, ok: bool) | Attempt(cmd: string, ok: bool)

  type Trace = seq<Event>

  predicate AllFailed(t: Trace) {
    forall i :: 0 <= i < |t| ==> !t[i].ok
  }

  function NotNegative(n: int): nat {
    if n < 0 then 0 else n
  }

  /** max attempts, unless a success ends them early. */
  predicate Tries(t: Trace, max: int, ok: bool) {
    if ok then t != [] && |t| <= max && t[|t| - 1].ok && forall i :: 0 <= i < |t| - 1 ==> !t[i].ok
    else |t| == NotNegative(max) && AllFailed(t)
  }

  predicate Probing(t: Trace, max: int, ready: bool) {
    Tries(t, max, ready) && forall i :: 0 <= i < |t| ==> t[i].Probe? && t[i].cmd == "seed"
  }

  predicate Block(t: Trace, cmd: string, max: int) {
    && (Tries(t, max, true) || Tries(t, max, false))
    && forall i :: 0 <= i < |t| ==> t[i].Attempt? && t[i].cmd == cmd
  }

  function Joined(blocks: seq<Trace>): Trace {
    if blocks == [] then [] else Joined(blocks[..|blocks| - 1]) + blocks[|blocks| - 1]
  }

  /** One block a command, in the configured order. */
  predicate Applies(blocks: seq<Trace>, commands: seq<string>, max: int) {
    |blocks| == |commands| && forall k :: 0 <= k < |blocks| ==> Block(blocks[k], commands[k], max)
  }

  // ----- A whole run -----

  /** logPath "" skips the boot log, bootPattern "" stands for the default. */
  datatype Config = Config(logPath: string, bootPattern: string, commands: seq<string>, minecraft: bool)

  datatype Timing = Timing(bootTimeout: nat, bootInterval: nat, rconMaxAttempts: int, cmdMaxAttempts: int)

  const PRODUCTION := Timing(180_000, 3_000, 60, 3)

  datatype Outcome = Applied | NoMinecraftConfig | BootLogTimedOut | NeverReady

  datatype Sends = Sends(probes: Trace, blocks: seq<Trace>)

  function Pattern(cfg: Config): string {
    if cfg.bootPattern != "" then cfg.bootPattern else DEFAULT_BOOT_PATTERN
  }

  ghost predicate BootPassed(cfg: Config, readings: nat -> Reading, timing: Timing) {
    cfg.logPath != "" ==> BootSeen(readings, Pattern(cfg), 0, timing.bootTimeout, timing.bootInterval)
  }

  /** The probes, and once one is answered the commands. */
  predicate Sequence(commands: seq<string>, timing: Timing, run: Sends, ready: bool) {
    && Probing(run.probes, timing.rconMaxAttempts, ready)
    && if ready then Applies(run.blocks, commands, timing.cmdMaxAttempts) else run.blocks == []
  }

  /** What a run sends, and how it ends: no reply to a command has a say in that. */
  ghost predicate Follows(cfg: Config, readings: nat -> Reading, timing: Timing, run: Sends, res: Outcome) {
    if cfg.commands == [] then res == Applied && run == Sends([], [])
    else if !cfg.minecraft then res == NoMinecraftConfig && run == Sends([], [])
    else if !BootPassed(cfg, readings, timing) then res == BootLogTimedOut && run == Sends([], [])
    else (res == Applied || res == NeverReady) && Sequence(cfg.commands, timing, run, res == Applied)
  }

  predicate AnswersFrom(t: Trace, replies: nat -> bool, from: nat) {
    forall i :: 0 <= i < |t| ==> t[i].ok == replies(from + i)
  }

  // ----- The console, and the procedure over it -----

  class Console {
    var trace: Trace
    const replies: nat -> bool // whether the n-th send goes well

    ghost predicate Valid()
      reads this
    {
      AnswersFrom(trace, replies, 0)
    }

    constructor (replies: nat -> bool)
      ensures Valid() && trace == [] && this.replies == replies
    {
      this.trace, this.replies := [], replies;
    }

    method WaitForRconReady(maxAttempts: int) returns (ready: bool, ghost probes: Trace)
      requires Valid()
      modifies this
      ensures Valid() && trace == old(trace) + probes && Probing(probes, maxAttempts, ready)
    {
      probes, ready := [], false;
      var i := 0;
      while i < maxAttempts
        invariant Valid() && trace == old(trace) + probes
        invariant !ready && |probes| == i && (i <= maxAttempts || i == 0)
        invariant AllFailed(probes) && forall j :: 0 <= j < i ==> probes[j].Probe? && probes[j].cmd == "seed"
      {
        var sent := Probe("seed", replies(|trace|));
        trace, probes := trace + [sent], probes + [sent];
        if sent.ok {
          ready := true;
          break;
        }
        i := i + 1;
      }
    }

    method ApplyCommand(cmd: string, maxAttempts: int) returns (ghost block: Trace)
      requires Valid()
      modifies this
      ensures Valid() && trace == old(trace) + block && Block(block, cmd, maxAttempts)
    {
      block := [];
      var attempt := 0;
      while attempt < maxAttempts
        invariant Valid() && trace == old(trace) + block
        invariant |block| == attempt && (attempt <= maxAttempts || attempt == 0) && AllFailed(block)
        invariant forall j :: 0 <= j < attempt ==> block[j].Attempt? && block[j].cmd == cmd
      {
        var sent := Attempt(cmd, replies(|trace|));
        trace, block := trace + [sent], block + [sent];
        if sent.ok {
          return;
        }
        if attempt == maxAttempts - 1 {
          return;
        }
        attempt := attempt + 1;
      }
    }

    /** The end of applyWithTiming: nothing a command does keeps the next from its turn. */
    method ApplyCommands(commands: seq<string>, maxAttempts: int) returns (ghost blocks: seq<Trace>)
      requires Valid()
      modifies this
      ensures Valid() && trace == old(trace) + Joined(blocks) && Applies(blocks, commands, maxAttempts)
    {
      blocks := [];
      for k := 0 to |commands|
        invariant Valid() && trace == old(trace) + Joined(blocks) && Applies(blocks, commands[..k], maxAttempts)
      {
        ghost var block := ApplyCommand(commands[k], maxAttempts);
        OneMoreBlock(old(trace), blocks, block);
        blocks := blocks + [block];
      }
      assert commands[..|commands|] == commands;
    }

    method ProbeAndApply(commands: seq<string>, timing: Timing) returns (ready: bool, ghost run: Sends)
      requires Valid() && trace == []
      modifies this
      ensures Valid() && trace == run.probes + Joined(run.blocks)
      ensures Sequence(commands, timing, run, ready)
      ensures ready <==> SomeGoesWell(replies, timing.rconMaxAttempts)
    {
      ghost var probes;
      ready, probes := WaitForRconReady(timing.rconMaxAttempts);
      ReadyExactly([] + probes, timing.rconMaxAttempts, ready, replies);
      ghost var blocks := [];
      if ready {
        blocks := ApplyCommands(commands, timing.cmdMaxAttempts);
      }
      run := Sends(probes, blocks);
    }

    /** Whether it ends well is up to the boot log and the probes: how the commands fare has no say. */
    method ApplyWithTiming(cfg: Config, readings: nat -> Reading, timing: Timing)
      returns (res: Outcome, ghost run: Sends)
      requires Valid() && trace == []
      requires cfg.logPath != "" ==> TimePasses(readings, timing.bootTimeout, timing.bootInterval)
      modifies this
      ensures Valid() && trace == run.probes + Joined(run.blocks) && Follows(cfg, readings, timing, run, res)
      ensures res == Applied <==>
        || cfg.commands == []
        || (cfg.minecraft && BootPassed(cfg, readings, timing) && SomeGoesWell(replies, timing.rconMaxAttempts))
    {
      run := Sends([], []);
      if cfg.commands == [] {
        return Applied, run;
      }
      if !cfg.minecraft {
        return NoMinecraftConfig, run;
      }
      if cfg.logPath != "" {
        var found := WaitForBootLog(readings, Pattern(cfg), 0, timing.bootTimeout, timing.bootInterval);
        if !found {
          return BootLogTimedOut, run;
        }
      }
      var ready;
      ready, run := ProbeAndApply(cfg.commands, timing);
      res := if ready then Applied else NeverReady;
    }
  }

  /** No log is waited for, or the pattern ("Done (" when none is configured) showed within 180 s, read every 3 s. */
  ghost predicate BootedInTime(cfg: Config, readings: nat -> Reading) {
    cfg.logPath == "" ||
      BootSeen(readings, if cfg.bootPattern == "" then "Done (" else cfg.bootPattern, 0, 180_000, 3_000)
  }

  /** With the production timings: at most 60 probes, and three attempts a command. */
  method Apply(console: Console, cfg: Config, readings: nat -> Reading) returns (res: Outcome, ghost run: Sends)
    requires console.Valid() && console.trace == []
    modifies console
    ensures console.Valid() && console.trace == run.probes + Joined(run.blocks)
    ensures Follows(cfg, readings, PRODUCTION, run, res) && |console.trace| <= 60 + |cfg.commands| * 3
    ensures res == Applied <==>
      || cfg.commands == []
      || (cfg.minecraft && BootedInTime(cfg, readings) && exists i: nat :: i < 60 && console.replies(i))
    ensures cfg.commands != [] && cfg.minecraft && BootedInTime(cfg, readings) ==>
      Probing(run.probes, 60, res == Applied)
    ensures res == Applied && cfg.commands != [] ==> Applies(run.blocks, cfg.commands, 3)
    ensures res != Applied ==> run.blocks == []
  {
    SleepsPass(readings, PRODUCTION.bootTimeout, PRODUCTION.bootInterval);
    res, run := console.ApplyWithTiming(cfg, readings, PRODUCTION);
    SendsBounded(cfg, readings, PRODUCTION, run, res);
  }

  lemma OneMoreBlock(start: Trace, blocks: seq<Trace>, block: Trace)
    ensures start + Joined(blocks) + block == start + Joined(blocks + [block])
  {
    assert (blocks + [block])[..|blocks|] == blocks;
  }

  /** One of the first max sends goes well. */
  ghost predicate SomeGoesWell(replies: nat -> bool, max: int) {
    exists i: nat :: i < max && replies(i)
  }

  /** Ready exactly when one of the first max sends would go well. */
  lemma ReadyExactly(probes: Trace, max: int, ready: bool, replies: nat -> bool)
    requires Probing(probes, max, ready) && AnswersFrom(probes, replies, 0)
    ensures ready <==> SomeGoesWell(replies, max)
  {
    if ready {
      var last: nat := |probes| - 1;
      assert probes[last].ok == replies(0 + last) && replies(last) && last < max;
    } else {
      forall i: nat | i < max
        ensures !replies(i)
      {
        assert probes[i].ok == replies(0 + i);
      }
    }
  }

  // ----- What the trace as a whole satisfies -----

  /** No command is sent before a probe was answered. */
  lemma NoCommandBeforeReady(cfg: Config, readings: nat -> Reading, timing: Timing, run: Sends, res: Outcome, i: nat)
    requires Follows(cfg, readings, timing, run, res)
    requires var t := run.probes + Joined(run.blocks); i < |t| && t[i].Attempt?
    ensures res == Applied
    ensures exists j: nat :: j < i && (run.probes + Joined(run.blocks))[j] == Probe("seed", true)
  {
    var t := run.probes + Joined(run.blocks);
    forall k | 0 <= k < |run.probes|
      ensures t[k] == run.probes[k] && t[k].Probe? && t[k].cmd == "seed"
    {
    }
    if res == Applied {
      assert t[|run.probes| - 1] == Probe("seed", true);
    }
  }

  /** Each command has its turn of at least one attempt; all but the last of them failed, and a turn cut short
      ended well. */
  lemma EveryCommandHasItsTurn(blocks: seq<Trace>, commands: seq<string>, max: int, k: nat)
    requires Applies(blocks, commands, max) && k < |commands|
    ensures |blocks[k]| <= NotNegative(max) && (max > 0 ==> 1 <= |blocks[k]|)
    ensures forall i :: 0 <= i < |blocks[k]| - 1 ==> blocks[k][i] == Attempt(commands[k], false)
    ensures 0 < |blocks[k]| < max ==> blocks[k][|blocks[k]| - 1] == Attempt(commands[k], true)
  {
    assert Block(blocks[k], commands[k], max);
  }

  lemma {:induction false} AttemptsBounded(blocks: seq<Trace>, commands: seq<string>, max: int)
    requires Applies(blocks, commands, max)
    ensures |Joined(blocks)| <= |commands| * NotNegative(max)
  {
    if blocks != [] {
      var n := |blocks| - 1;
      AttemptsBounded(blocks[..n], commands[..n], max);
      EveryCommandHasItsTurn(blocks, commands, max, n);
      assert (n + 1) * NotNegative(max) == n * NotNegative(max) + NotNegative(max);
    }
  }

  lemma SendsBounded(cfg: Config, readings: nat -> Reading, timing: Timing, run: Sends, res: Outcome)
    requires Follows(cfg, readings, timing, run, res)
    ensures |run.probes + Joined(run.blocks)|
      <= NotNegative(timing.rconMaxAttempts) + |cfg.commands| * NotNegative(timing.cmdMaxAttempts)
  {
    if run.blocks != [] {
      AttemptsBounded(run.blocks, cfg.commands, timing.cmdMaxAttempts);
    }
  }

  // ----- The protocol leaves nothing open -----

  /** How often something is tried, and with what success, depends on the replies alone. */
  lemma TriesDetermined(s: Trace, t: Trace, max: int, ok: bool, ok': bool, replies: nat -> bool, from: nat)
    requires Tries(s, max, ok) && Tries(t, max, ok') && AnswersFrom(s, replies, from) && AnswersFrom(t, replies, from)
    ensures |s| == |t| && ok == ok'
  {
    forall i | 0 <= i < |s| && i < |t|
      ensures s[i].ok == t[i].ok
    {
    }
  }

  lemma BlocksDetermined(s: Trace, t: Trace, cmd: string, max: int, replies: nat -> bool, from: nat)
    requires Block(s, cmd, max) && Block(t, cmd, max) && AnswersFrom(s, replies, from) && AnswersFrom(t, replies, from)
    ensures s == t
  {
    var ok, ok' := Tries(s, max, true), Tries(t, max, true);
    TriesDetermined(s, t, max, ok, ok', replies, from);
    forall i | 0 <= i < |s|
      ensures s[i] == t[i]
    {
      assert s[i] == Attempt(cmd, replies(from + i)) && t[i] == Attempt(cmd, replies(from + i));
    }
  }

  lemma {:induction false} TurnsDetermined(a: seq<Trace>, b: seq<Trace>, commands: seq<string>, max: int,
                                           replies: nat -> bool, from: nat)
    requires Applies(a, commands, max) && Applies(b, commands, max)
    requires AnswersFrom(Joined(a), replies, from) && AnswersFrom(Joined(b), replies, from)
    ensures a == b
  {
    if a != [] {
      var n := |a| - 1;
      var front, front' := Joined(a[..n]), Joined(b[..n]);
      SplitAnswers(front, a[n], replies, from);
      SplitAnswers(front', b[n], replies, from);
      TurnsDetermined(a[..n], b[..n], commands[..n], max, replies, from);
      BlocksDetermined(a[n], b[n], commands[n], max, replies, from + |front|);
      assert a == a[..n] + [a[n]] && b == b[..n] + [b[n]];
    }
  }

  lemma SplitAnswers(s: Trace, t: Trace, replies: nat -> bool, from: nat)
    requires AnswersFrom(s + t, replies, from)
    ensures AnswersFrom(s, replies, from) && AnswersFrom(t, replies, from + |s|)
  {
    forall i | 0 <= i < |s|
      ensures s[i].ok == replies(from + i)
    {
      assert (s + t)[i] == s[i];
    }
    forall i | 0 <= i < |t|
      ensures t[i].ok == replies(from + |s| + i)
    {
      assert (s + t)[|s| + i] == t[i];
    }
  }

  /** Given the configuration, the boot log and the replies, only one run follows the protocol. */
  lemma OnlyOneRun(cfg: Config, readings: nat -> Reading, timing: Timing, replies: nat -> bool,
                   run: Sends, res: Outcome, run': Sends, res': Outcome)
    requires Follows(cfg, readings, timing, run, res) && Follows(cfg, readings, timing, run', res')
    requires AnswersFrom(run.probes + Joined(run.blocks), replies, 0)
    requires AnswersFrom(run'.probes + Joined(run'.blocks), replies, 0)
    ensures run == run' && res == res'
  {
    if cfg.commands != [] && cfg.minecraft && BootPassed(cfg, readings, timing) {
      OnlyOneSequence(cfg.commands, timing, replies, run, run', res == Applied, res' == Applied);
    }
  }

  lemma OnlyOneSequence(commands: seq<string>, timing: Timing, replies: nat -> bool,
                        run: Sends, run': Sends, ready: bool, ready': bool)
    requires Sequence(commands, timing, run, ready) && Sequence(commands, timing, run', ready')
    requires AnswersFrom(run.probes + Joined(run.blocks), replies, 0)
    requires AnswersFrom(run'.probes + Joined(run'.blocks), replies, 0)
    ensures run == run' && ready == ready'
  {
    SplitAnswers(run.probes, Joined(run.blocks), replies, 0);
    SplitAnswers(run'.probes, Joined(run'.blocks), replies, 0);
    ProbesDetermined(run.probes, run'.probes, timing.rconMaxAttempts, ready, ready', replies);
    if ready {
      TurnsDetermined(run.blocks, run'.blocks, commands, timing.cmdMaxAttempts, replies, |run.probes|);
    }
  }

  lemma ProbesDetermined(s: Trace, t: Trace, max: int, ready: bool, ready': bool, replies: nat -> bool)
    requires Probing(s, max, ready) && Probing(t, max, ready')
    requires AnswersFrom(s, replies, 0) && AnswersFrom(t, replies, 0)
    ensures s == t && ready == ready'
  {
    TriesDetermined(s, t, max, ready, ready', replies, 0);
    forall i | 0 <= i < |s|
      ensures s[i] == t[i]
    {
      assert s[i] == Probe("seed", replies(0 + i)) && t[i] == Probe("seed", replies(0 + i));
    }
  }
}
