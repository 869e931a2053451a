/** Over whole runs: the pruning limiter answers as one that never forgets, and keeps a true sliding window. */
module SlidingWindow {
  import opened RateLimiter

  datatype Call = Call(key: string, now: int)

  /** The clock has not yet passed t. */
  predicate NotAfter(calls: seq<Call>, t: int) {
    calls != [] ==> calls[|calls| - 1].now <= t
  }

  /** time.Now() never runs backwards. */
  predicate InOrder(calls: seq<Call>) {
    calls != [] ==> InOrder(calls[..|calls| - 1]) && NotAfter(calls[..|calls| - 1], calls[|calls| - 1].now)
  }

  lemma {:induction false} InOrderAt(calls: seq<Call>, i: nat, j: nat)
    requires InOrder(calls) && i <= j < |calls|
    ensures calls[i].now <= calls[j].now
  {
    if j < |calls| - 1 {
      InOrderAt(calls[..|calls| - 1], i, j);
    } else if i < j {
      InOrderAt(calls[..|calls| - 1], i, j - 1);
    }
  }

  // ----- The limiter as written, and the one that keeps everything -----

  /** The lists after a run from the empty limiter. */
  function Pruned(calls: seq<Call>, max: int, window: int): Lists {
    if calls == [] then map[] else
    var c := calls[|calls| - 1];
    After(Pruned(calls[..|calls| - 1], max, window), max, window, c.key, c.now)
  }

  /** What Allow answers to the call c after a run. */
  predicate Answer(before: seq<Call>, c: Call, max: int, window: int) {
    Allowed(Pruned(before, max, window), max, window, c.key, c.now)
  }

  /** One key's list, followed on its own. */
  function ListOf(calls: seq<Call>, max: int, window: int, key: string): seq<int> {
    if calls == [] then [] else
    var before, c := ListOf(calls[..|calls| - 1], max, window, key), calls[|calls| - 1];
    if c.key == key then NextList(before, max, window, c.now) else before
  }

  lemma {:induction false} StoredIsListOf(calls: seq<Call>, max: int, window: int, key: string)
    ensures Stored(Pruned(calls, max, window), key) == ListOf(calls, max, window, key)
  {
    if calls != [] {
      StoredIsListOf(calls[..|calls| - 1], max, window, key);
    }
  }

  /** Every instant at which this key was ever allowed, when nothing is forgotten. */
  function History(calls: seq<Call>, max: int, window: int, key: string): seq<int> {
    if calls == [] then [] else
    var before, c := History(calls[..|calls| - 1], max, window, key), calls[|calls| - 1];
    if c.key == key then NextHistory(before, max, window, c.now) else before
  }

  predicate FullAnswer(before: seq<Call>, c: Call, max: int, window: int) {
    |Recent(History(before, max, window, c.key), c.now - window)| < max
  }

  // ----- Filtering by age -----

  lemma {:induction false} RecentOfOneMore(s: seq<int>, t: int, cutoff: int)
    ensures Recent(s + [t], cutoff) == if t > cutoff then Recent(s, cutoff) + [t] else Recent(s, cutoff)
  {
    assert (s + [t])[..|s|] == s;
  }

  /** Forgetting by an earlier cutoff first makes no difference. */
  lemma {:induction false} RecentTwice(s: seq<int>, early: int, late: int)
    requires early <= late
    ensures Recent(Recent(s, early), late) == Recent(s, late)
  {
    if s != [] {
      var rest, t := s[..|s| - 1], s[|s| - 1];
      RecentTwice(rest, early, late);
      if t > early {
        RecentOfOneMore(Recent(rest, early), t, late);
      }
    }
  }

  predicate Ascending(s: seq<int>) {
    s != [] ==> Ascending(s[..|s| - 1]) && UpTo(s[..|s| - 1], s[|s| - 1])
  }

  lemma {:induction false} AscendingAt(s: seq<int>, i: nat, j: nat)
    requires Ascending(s) && i <= j < |s|
    ensures s[i] <= s[j]
  {
    if j < |s| - 1 {
      AscendingAt(s[..|s| - 1], i, j);
    }
  }

  predicate UpTo(s: seq<int>, t: int) {
    forall i :: 0 <= i < |s| ==> s[i] <= t
  }

  lemma {:induction false} AscendingOneMore(s: seq<int>, t: int)
    requires Ascending(s) && UpTo(s, t)
    ensures Ascending(s + [t]) && UpTo(s + [t], t)
  {
    assert (s + [t])[..|s|] == s;
  }

  lemma {:induction false} RecentAscends(s: seq<int>, cutoff: int, until: int)
    requires Ascending(s) && UpTo(s, until)
    ensures Ascending(Recent(s, cutoff)) && UpTo(Recent(s, cutoff), until)
  {
    if s != [] {
      var rest, t := s[..|s| - 1], s[|s| - 1];
      RecentAscends(rest, cutoff, t);
      AscendingOneMore(Recent(rest, cutoff), t);
    }
  }

  /** r is the end of s, from its first element after the cutoff on. */
  predicate RecentSuffix(s: seq<int>, r: seq<int>, cutoff: int) {
    && |r| <= |s| && r == s[|s| - |r|..]
    && (r != [] ==> r[0] > cutoff)
    && (|r| < |s| ==> s[|s| - |r| - 1] <= cutoff)
  }

  lemma {:induction false} SuffixOfOneMore(s: seq<int>, r: seq<int>, cutoff: int)
    requires s != [] && UpTo(s[..|s| - 1], s[|s| - 1]) && RecentSuffix(s[..|s| - 1], r, cutoff)
    ensures RecentSuffix(s, if s[|s| - 1] > cutoff then r + [s[|s| - 1]] else r, cutoff)
  {
    var rest, t := s[..|s| - 1], s[|s| - 1];
    var k := |rest| - |r|;
    assert r != [] ==> r[0] == rest[k] <= t;
    if t > cutoff {
      assert s[k..] == rest[k..] + [t];
    }
  }

  lemma {:induction false} RecentOfAscending(s: seq<int>, cutoff: int)
    requires Ascending(s)
    ensures RecentSuffix(s, Recent(s, cutoff), cutoff)
  {
    if s != [] {
      var rest, t := s[..|s| - 1], s[|s| - 1];
      RecentOfAscending(rest, cutoff);
      SuffixOfOneMore(s, Recent(rest, cutoff), cutoff);
    }
  }

  lemma {:induction false} SuffixReaches(s: seq<int>, r: seq<int>, cutoff: int, n: nat)
    requires Ascending(s) && RecentSuffix(s, r, cutoff) && 0 < n <= |r|
    ensures s[|s| - n] > cutoff
  {
    var k := |s| - |r|;
    assert r[0] == s[k..][0] == s[k];
    AscendingAt(s, k, |s| - n);
  }

  lemma {:induction false} SuffixStops(s: seq<int>, r: seq<int>, cutoff: int, n: nat)
    requires Ascending(s) && RecentSuffix(s, r, cutoff) && |r| < n <= |s|
    ensures s[|s| - n] <= cutoff
  {
    AscendingAt(s, |s| - n, |s| - |r| - 1);
  }

  lemma {:induction false} RecentAtLeast(s: seq<int>, cutoff: int, n: nat)
    requires Ascending(s) && n > 0
    ensures |Recent(s, cutoff)| >= n <==> |s| >= n && s[|s| - n] > cutoff
  {
    RecentOfAscending(s, cutoff);
    if |Recent(s, cutoff)| >= n {
      SuffixReaches(s, Recent(s, cutoff), cutoff, n);
    } else if |s| >= n {
      SuffixStops(s, Recent(s, cutoff), cutoff, n);
    }
  }

  /** max of them are recent exactly when the one max places from the end is. */
  lemma {:induction false} FullExactly(s: seq<int>, cutoff: int, max: int)
    requires Ascending(s)
    ensures |Recent(s, cutoff)| >= max <==> max <= 0 || (|s| >= max && s[|s| - max] > cutoff)
  {
    if max > 0 {
      RecentAtLeast(s, cutoff, max);
    }
  }

  // ----- Refinement -----

  ghost predicate SameFrom(list: seq<int>, history: seq<int>, from: int) {
    forall cutoff :: cutoff >= from ==> Recent(list, cutoff) == Recent(history, cutoff)
  }

  lemma {:induction false} SameFromLater(list: seq<int>, history: seq<int>, from: int, later: int)
    requires SameFrom(list, history, from) && from <= later
    ensures SameFrom(list, history, later)
  {
  }

  function NextHistory(history: seq<int>, max: int, window: int, now: int): seq<int> {
    Noted(history, |Recent(history, now - window)| < max, now)
  }

  lemma {:induction false} NotedAlike(kept: seq<int>, history: seq<int>, allowed: bool, now: int, c: int)
    requires Recent(kept, c) == Recent(history, c)
    ensures Recent(Noted(kept, allowed, now), c) == Recent(Noted(history, allowed, now), c)
  {
    if allowed {
      RecentOfOneMore(kept, now, c);
      RecentOfOneMore(history, now, c);
    }
  }

  lemma {:induction false} NextListNotes(list: seq<int>, max: int, window: int, now: int)
    ensures var kept := Recent(list, now - window); NextList(list, max, window, now) == Noted(kept, |kept| < max, now)
  {
  }

  lemma {:induction false} SameAt(list: seq<int>, history: seq<int>, max: int, window: int, now: int, c: int)
    requires Recent(list, now - window) == Recent(history, now - window) && Recent(list, c) == Recent(history, c)
    requires c >= now - window
    ensures Recent(NextList(list, max, window, now), c) == Recent(NextHistory(history, max, window, now), c)
  {
    var kept := Recent(list, now - window);
    RecentTwice(list, now - window, c);
    NotedAlike(kept, history, |kept| < max, now, c);
    NextListNotes(list, max, window, now);
  }

  lemma {:induction false} SameFromAt(list: seq<int>, history: seq<int>, from: int)
    requires SameFrom(list, history, from)
    ensures Recent(list, from) == Recent(history, from)
  {
  }

  lemma {:induction false} AnswerFromList(before: seq<Call>, c: Call, max: int, window: int)
    ensures Answer(before, c, max, window) <==> |Recent(ListOf(before, max, window, c.key), c.now - window)| < max
  {
    StoredIsListOf(before, max, window, c.key);
  }

  lemma {:induction false} SameAfterCall(list: seq<int>, history: seq<int>, max: int, window: int, now: int)
    requires SameFrom(list, history, now - window)
    ensures SameFrom(NextList(list, max, window, now), NextHistory(history, max, window, now), now - window)
  {
    forall c | c >= now - window
      ensures Recent(NextList(list, max, window, now), c) == Recent(NextHistory(history, max, window, now), c)
    {
      assert Recent(list, now - window) == Recent(history, now - window) && Recent(list, c) == Recent(history, c);
      SameAt(list, history, max, window, now, c);
    }
  }

  /** For every cutoff a call at or after `from` can use, the stored list and the whole history show the same
      instants. */
  lemma {:induction false} ListsAgree(calls: seq<Call>, max: int, window: int, key: string, from: int)
    requires InOrder(calls) && NotAfter(calls, from + window)
    ensures SameFrom(ListOf(calls, max, window, key), History(calls, max, window, key), from)
  {
    if calls != [] {
      var before, c := calls[..|calls| - 1], calls[|calls| - 1];
      var cutoff := c.now - window;
      ListsAgree(before, max, window, key, cutoff);
      SameAfterCall(ListOf(before, max, window, key), History(before, max, window, key), max, window, c.now);
      SameFromLater(ListOf(calls, max, window, key), History(calls, max, window, key), cutoff, from);
    }
  }

  lemma {:induction false} AgreeAt(calls: seq<Call>, max: int, window: int, key: string, now: int)
    requires InOrder(calls) && NotAfter(calls, now)
    ensures Recent(ListOf(calls, max, window, key), now - window)
      == Recent(History(calls, max, window, key), now - window)
  {
    ListsAgree(calls, max, window, key, now - window);
    SameFromAt(ListOf(calls, max, window, key), History(calls, max, window, key), now - window);
  }

  /** Call for call, the pruning limiter gives the answers of the one that never forgets. */
  lemma {:induction false} PruningIsInvisible(before: seq<Call>, c: Call, max: int, window: int)
    requires InOrder(before) && NotAfter(before, c.now)
    ensures Answer(before, c, max, window) == FullAnswer(before, c, max, window)
  {
    AnswerFromList(before, c, max, window);
    AgreeAt(before, max, window, c.key, c.now);
  }

  // ----- The sliding window -----

  lemma {:induction false} HistoryAscends(calls: seq<Call>, max: int, window: int, key: string, until: int)
    requires InOrder(calls) && NotAfter(calls, until)
    ensures Ascending(History(calls, max, window, key))
    ensures UpTo(History(calls, max, window, key), until)
  {
    if calls != [] {
      var before, c := calls[..|calls| - 1], calls[|calls| - 1];
      HistoryAscends(before, max, window, key, c.now);
      AscendingOneMore(History(before, max, window, key), c.now);
    }
  }

  /** The instants at which the limiter, as written, allowed this key. */
  function AllowedTimes(calls: seq<Call>, max: int, window: int, key: string): seq<int> {
    if calls == [] then [] else
    var before, c := AllowedTimes(calls[..|calls| - 1], max, window, key), calls[|calls| - 1];
    if c.key == key then Noted(before, Answer(calls[..|calls| - 1], c, max, window), c.now) else before
  }

  function Noted(times: seq<int>, allowed: bool, now: int): seq<int> {
    if allowed then times + [now] else times
  }

  lemma {:induction false} NextHistoryNotes(before: seq<Call>, c: Call, max: int, window: int)
    ensures var h := History(before, max, window, c.key);
            NextHistory(h, max, window, c.now) == Noted(h, FullAnswer(before, c, max, window), c.now)
  {
  }

  lemma {:induction false} AllowedTimesAreHistory(calls: seq<Call>, max: int, window: int, key: string)
    requires InOrder(calls)
    ensures AllowedTimes(calls, max, window, key) == History(calls, max, window, key)
  {
    if calls != [] {
      var before, c := calls[..|calls| - 1], calls[|calls| - 1];
      AllowedTimesAreHistory(before, max, window, key);
      if c.key == key {
        PruningIsInvisible(before, c, max, window);
        NextHistoryNotes(before, c, max, window);
      }
    }
  }

  lemma {:induction false} HistorySpans(calls: seq<Call>, max: int, window: int, key: string, i: nat)
    requires InOrder(calls) && max >= 0
    requires i + max < |History(calls, max, window, key)|
    ensures History(calls, max, window, key)[i + max] - History(calls, max, window, key)[i] >= window
  {
    var before, c := calls[..|calls| - 1], calls[|calls| - 1];
    var h := History(before, max, window, key);
    if i + max < |h| {
      HistorySpans(before, max, window, key, i);
    } else {
      HistoryAscends(before, max, window, key, c.now);
      RecentAtLeast(h, c.now - window, max);
    }
  }

  /** Any max + 1 successive allowed attempts of one key span at least the window. */
  lemma {:induction false} WindowHolds(calls: seq<Call>, max: int, window: int, key: string, i: nat)
    requires InOrder(calls) && max >= 0
    requires i + max < |AllowedTimes(calls, max, window, key)|
    ensures AllowedTimes(calls, max, window, key)[i + max] - AllowedTimes(calls, max, window, key)[i] >= window
  {
    AllowedTimesAreHistory(calls, max, window, key);
    HistorySpans(calls, max, window, key, i);
  }

  /** An attempt is denied exactly when max earlier allowed attempts of the key lie strictly inside the last window. */
  lemma {:induction false} DeniedExactly(before: seq<Call>, c: Call, max: int, window: int)
    requires InOrder(before) && NotAfter(before, c.now)
    ensures var h := AllowedTimes(before, max, window, c.key);
            !Answer(before, c, max, window) <==> max <= 0 || (|h| >= max && h[|h| - max] > c.now - window)
  {
    PruningIsInvisible(before, c, max, window);
    AllowedTimesAreHistory(before, max, window, c.key);
    HistoryAscends(before, max, window, c.key, c.now);
    FullExactly(History(before, max, window, c.key), c.now - window, max);
  }

  // ----- What is stored -----

  /** Each stored list is ascending and never longer than max. */
  lemma {:induction false} StoredListsBounded(calls: seq<Call>, max: int, window: int, key: string, until: int)
    requires InOrder(calls) && NotAfter(calls, until)
    ensures var list := Stored(Pruned(calls, max, window), key);
            |list| <= (if max > 0 then max else 0) && Ascending(list) && UpTo(list, until)
  {
    StoredIsListOf(calls, max, window, key);
    ListBounded(calls, max, window, key, until);
  }

  lemma {:induction false} ListBounded(calls: seq<Call>, max: int, window: int, key: string, until: int)
    requires InOrder(calls) && NotAfter(calls, until)
    ensures var list := ListOf(calls, max, window, key);
            |list| <= (if max > 0 then max else 0) && Ascending(list) && UpTo(list, until)
  {
    if calls != [] {
      var before, c := calls[..|calls| - 1], calls[|calls| - 1];
      ListBounded(before, max, window, key, c.now);
      NextListBounded(ListOf(before, max, window, key), max, window, c.now);
    }
  }

  lemma {:induction false} NextListBounded(list: seq<int>, max: int, window: int, now: int)
    requires |list| <= (if max > 0 then max else 0) && Ascending(list) && UpTo(list, now)
    ensures var next := NextList(list, max, window, now);
            |next| <= (if max > 0 then max else 0) && Ascending(next) && UpTo(next, now)
  {
    RecentAscends(list, now - window, now);
    AscendingOneMore(Recent(list, now - window), now);
  }

  // ----- Keys do not disturb each other -----

  function OnlyKey(calls: seq<Call>, key: string): seq<Call> {
    if calls == [] then [] else
    var before, c := OnlyKey(calls[..|calls| - 1], key), calls[|calls| - 1];
    if c.key == key then before + [c] else before
  }

  lemma {:induction false} ListOfOnlyKey(calls: seq<Call>, max: int, window: int, key: string)
    ensures ListOf(OnlyKey(calls, key), max, window, key) == ListOf(calls, max, window, key)
  {
    if calls != [] {
      var before, c := calls[..|calls| - 1], calls[|calls| - 1];
      ListOfOnlyKey(before, max, window, key);
      if c.key == key {
        assert OnlyKey(calls, key)[..|OnlyKey(calls, key)| - 1] == OnlyKey(before, key);
      }
    }
  }

  /** Every answer to a key is that of the run with all other keys left out. */
  lemma {:induction false} KeysIndependent(before: seq<Call>, c: Call, max: int, window: int)
    ensures Answer(before, c, max, window) == Answer(OnlyKey(before, c.key), c, max, window)
  {
    ListOfOnlyKey(before, max, window, c.key);
    AnswerFromList(before, c, max, window);
    AnswerFromList(OnlyKey(before, c.key), c, max, window);
  }
}
