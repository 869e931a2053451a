/** backup/backup.go: one backup run over the backups directory and the server's console. */
module Backup {
  import opened Wrappers

  /** The data is the archive itself, which is not looked into. */
  datatype Entry = Entry(modTime: int, data: string)

  type Folder = map<string, Entry>

  const DEFAULT_MAX_BACKUPS := 12

  /** max_backups unset, or set to 0, means the default. */
  function ResolveMaxBackups(configured: int): int {
    if configured != 0 then configured else DEFAULT_MAX_BACKUPS
  }

  // ----- Names -----

  /** The glob world_*.zip. */
  predicate Matches(name: string) {
    "world_" <= name && |name| >= |"world_"| + |".zip"| && name[|name| - |".zip"|..] == ".zip"
  }

  function FinalName(stamp: string): string {
    "world_" + stamp + ".zip"
  }

  function TmpName(stamp: string): string {
    FinalName(stamp) + ".tmp"
  }

  lemma Naming(stamp: string, other: string)
    ensures Matches(FinalName(stamp)) && !Matches(TmpName(stamp))
    ensures FinalName(stamp) == FinalName(other) ==> stamp == other
  {
    var name, tmp := FinalName(stamp), TmpName(stamp);
    assert name[|name| - 4..] == ".zip";
    assert tmp[|tmp| - 4..] == ".tmp" && ".tmp"[1] == 't' && ".zip"[1] == 'z';
    assert stamp == name[6..|name| - 4] && other == FinalName(other)[6..|FinalName(other)| - 4];
  }

  predicate EndsIn(name: string, suffix: string) {
    |suffix| <= |name| && name[|name| - |suffix|..] == suffix
  }

  /** The glob finds exactly the names that are world_, anything, .zip. */
  lemma {:induction false} GlobExactly(name: string)
    ensures Matches(name) <==> exists middle: string :: name == "world_" + middle + ".zip"
  {
    if Matches(name) {
      var middle := name[6..|name| - 4];
      assert name == name[..6] + middle + name[|name| - 4..];
      assert name == "world_" + middle + ".zip";
    }
    forall middle: string | name == "world_" + middle + ".zip"
      ensures Matches(name)
    {
      Naming(middle, middle);
    }
  }

  // ----- Rotation: which backups may go -----

  datatype Found = Found(name: string, modTime: int)

  /** The matching files that the listing shows and os.Stat can look at. */
  function Seen(folder: Folder, hidden: set<string>): set<string> {
    set name | name in folder && Matches(name) && name !in hidden
  }

  function Newer(folder: Folder, seen: set<string>, than: int): set<string>
    requires seen <= folder.Keys
  {
    set name | name in seen && folder[name].modTime >= than
  }

  /** Nothing goes that is among the `keep` newest: each deleted file leaves that many behind which are no older. */
  ghost predicate NewestKept(folder: Folder, seen: set<string>, gone: set<string>, keep: nat) {
    && gone <= seen <= folder.Keys
    && forall g :: g in gone ==> |Newer(folder, seen - gone, folder[g].modTime)| >= keep
  }

  /** When no more than `keep` stay, every one that stays is at least as new as every one that goes. */
  lemma StayersAreNewest(folder: Folder, seen: set<string>, gone: set<string>, keep: nat)
    requires NewestKept(folder, seen, gone, keep) && |seen - gone| <= keep
    ensures forall s, g :: s in seen - gone && g in gone ==> folder[s].modTime >= folder[g].modTime
  {
    forall s, g | s in seen - gone && g in gone
      ensures folder[s].modTime >= folder[g].modTime
    {
      Fills(Newer(folder, seen - gone, folder[g].modTime), seen - gone);
      assert s in Newer(folder, seen - gone, folder[g].modTime);
    }
  }

  lemma {:induction false} SubsetSize<T>(a: set<T>, b: set<T>)
    requires a <= b
    ensures |a| <= |b|
  {
    if a != {} {
      var x :| x in a;
      SubsetSize(a - {x}, b - {x});
    }
  }

  lemma Fills<T>(a: set<T>, b: set<T>)
    requires a <= b && |a| >= |b|
    ensures a == b
  {
    SubsetSize(b - a, b);
    assert b == a + (b - a);
  }

  function Above(folder: Folder, seen: set<string>, than: int): set<string>
    requires seen <= folder.Keys
  {
    set name | name in seen && folder[name].modTime > than
  }

  /** When no two files are equally old, exactly those stay that have fewer than `keep` newer ones beside them. */
  lemma StaysWhenFewNewer(folder: Folder, seen: set<string>, gone: set<string>, keep: nat, name: string)
    requires NewestKept(folder, seen, gone, keep) && |seen - gone| == (if |seen| <= keep then |seen| else keep)
    requires forall a, b :: a in seen && b in seen && a != b ==> folder[a].modTime != folder[b].modTime
    requires name in seen
    ensures name in seen - gone <==> |Above(folder, seen, folder[name].modTime)| < keep
  {
    StayersAreNewest(folder, seen, gone, keep);
    var above := Above(folder, seen, folder[name].modTime);
    if name in gone {
      assert seen - gone <= above;
      SubsetSize(seen - gone, above);
      SubsetSize(seen - gone, seen - {name});
    } else {
      assert above <= seen - gone - {name};
      SubsetSize(above, seen - gone - {name});
    }
  }

  // ----- Rotation: the sorted list -----

  function FoundIn(folder: Folder, seen: set<string>): set<Found>
    requires seen <= folder.Keys
  {
    set name | name in seen :: Found(name, folder[name].modTime)
  }

  ghost predicate Lists(files: seq<Found>, folder: Folder, seen: set<string>) {
    seen <= folder.Keys && multiset(files) == multiset(FoundIn(folder, seen))
  }

  ghost predicate NewestFirst(files: seq<Found>) {
    forall i, j :: 0 <= i < j < |files| ==> files[i].modTime >= files[j].modTime
  }

  function Names(files: seq<Found>): (names: set<string>) {
    set i | 0 <= i < |files| :: files[i].name
  }

  lemma Repeated<T>(s: seq<T>, i: nat, j: nat)
    requires i < j < |s|
    ensures s[i] == s[j] ==> multiset(s)[s[i]] >= 2
  {
    assert s == s[..j] + s[j..];
    assert s[..j][i] in multiset(s[..j]) && s[j..][0] in multiset(s[j..]);
  }

  lemma NoTwins(files: seq<Found>, folder: Folder, seen: set<string>, i: nat, j: nat)
    requires Lists(files, folder, seen) && i < j < |files|
    ensures files[i].name != files[j].name
  {
    InListing(files, folder, seen, i);
    InListing(files, folder, seen, j);
    Repeated(files, i, j);
    assert multiset(files)[files[i]] <= 1;
  }

  lemma InListing(files: seq<Found>, folder: Folder, seen: set<string>, i: nat)
    requires Lists(files, folder, seen) && i < |files|
    ensures files[i].name in seen && files[i].modTime == folder[files[i].name].modTime
  {
    assert files[i] in multiset(files);
  }

  lemma ListedSomewhere(files: seq<Found>, folder: Folder, seen: set<string>)
    requires Lists(files, folder, seen)
    ensures Names(files) == seen
  {
    forall name | name in seen
      ensures name in Names(files)
    {
      assert Found(name, folder[name].modTime) in multiset(files);
      var i :| 0 <= i < |files| && files[i] == Found(name, folder[name].modTime);
    }
    forall i | 0 <= i < |files|
      ensures files[i].name in seen
    {
      InListing(files, folder, seen, i);
    }
  }

  lemma {:induction false} CountNames(files: seq<Found>)
    requires forall i, j :: 0 <= i < j < |files| ==> files[i].name != files[j].name
    ensures |Names(files)| == |files|
  {
    if files != [] {
      var rest, last := files[..|files| - 1], files[|files| - 1];
      CountNames(rest);
      assert Names(files) == Names(rest) + {last.name};
      assert last.name !in Names(rest);
    }
  }

  lemma PartNames(files: seq<Found>, folder: Folder, seen: set<string>, from: nat, to: nat)
    requires Lists(files, folder, seen) && from <= to <= |files|
    ensures Names(files[from..to]) <= seen && |Names(files[from..to])| == to - from
  {
    var part := files[from..to];
    forall i: nat, j: nat | i < j < |part|
      ensures part[i].name != part[j].name
    {
      NoTwins(files, folder, seen, from + i, from + j);
    }
    CountNames(part);
    forall i: nat | i < |part|
      ensures part[i].name in seen
    {
      InListing(files, folder, seen, from + i);
    }
  }

  lemma CutSizes(files: seq<Found>, folder: Folder, seen: set<string>, keep: nat, i: nat)
    requires Lists(files, folder, seen) && keep <= i <= |files|
    ensures Names(files[keep..i]) <= seen
    ensures |seen| == |files| && |seen - Names(files[keep..i])| == |files| - (i - keep)
  {
    PartNames(files, folder, seen, keep, i);
    PartNames(files, folder, seen, 0, |files|);
    assert files[0..|files|] == files;
    ListedSomewhere(files, folder, seen);
    Difference(seen, Names(files[keep..i]));
  }

  /** Deleting from place `keep` of the sorted list up to i costs none of the newest. */
  lemma CutKeepsNewest(files: seq<Found>, folder: Folder, seen: set<string>, keep: nat, i: nat)
    requires Lists(files, folder, seen) && NewestFirst(files) && keep <= i <= |files|
    ensures NewestKept(folder, seen, Names(files[keep..i]), keep)
  {
    var gone := Names(files[keep..i]);
    PartNames(files, folder, seen, keep, i);
    forall g | g in gone
      ensures |Newer(folder, seen - gone, folder[g].modTime)| >= keep
    {
      var b: nat :| b < i - keep && files[keep..i][b].name == g;
      FrontIsNewer(files, folder, seen, keep, i, keep + b);
      PartNames(files, folder, seen, 0, keep);
      assert files[0..keep] == files[..keep];
      SubsetSize(Names(files[..keep]), Newer(folder, seen - gone, folder[g].modTime));
    }
  }

  lemma FrontIsNewer(files: seq<Found>, folder: Folder, seen: set<string>, keep: nat, i: nat, at: nat)
    requires Lists(files, folder, seen) && NewestFirst(files) && keep <= at < i <= |files|
    ensures files[at].name in folder
    ensures Names(files[..keep]) <= Newer(folder, seen - Names(files[keep..i]), folder[files[at].name].modTime)
  {
    InListing(files, folder, seen, at);
    forall a: nat | a < keep
      ensures files[a].name in Newer(folder, seen - Names(files[keep..i]), folder[files[at].name].modTime)
    {
      InListing(files, folder, seen, a);
      forall b: nat | b < i - keep
        ensures files[a].name != files[keep..i][b].name
      {
        NoTwins(files, folder, seen, a, keep + b);
      }
    }
  }

  lemma Difference<T>(a: set<T>, b: set<T>)
    requires b <= a
    ensures |a - b| == |a| - |b|
  {
    assert a == (a - b) + b;
  }

  // ----- The console -----

  /** A command that was carried out may still fail for us, when the reply does not arrive. */
  datatype Delivery = NotDelivered | ReplyLost | Answered

  datatype Event = Dialled(ok: bool) | Sent(cmd: string, delivery: Delivery) | Zipped(ok: bool) | Rotated(ok: bool)

  function AutosaveAfter(e: Event, autosave: bool): bool {
    if e.Sent? && !e.delivery.NotDelivered? then
      if e.cmd == "save-off" then false else if e.cmd == "save-on" then true else autosave
    else autosave
  }

  /** Whether the server is saving the world on its own after these events. */
  function Autosave(events: seq<Event>, start: bool): bool {
    if events == [] then start
    else AutosaveAfter(events[|events| - 1], Autosave(events[..|events| - 1], start))
  }

  predicate HeardAt(e: Event, d: Delivery) {
    match e
    case Dialled(ok) => ok == d.Answered?
    case Sent(_, delivery) => delivery == d
    case _ => true
  }

  /** The dials and commands among these events fared as the replies say. */
  predicate Heard(events: seq<Event>, replies: nat -> Delivery) {
    events != [] ==>
      var n := |events| - 1;
      Heard(events[..n], replies) && HeardAt(events[n], replies(n))
  }

  lemma {:induction false} HeardEach(events: seq<Event>, replies: nat -> Delivery, i: nat)
    requires Heard(events, replies) && i < |events|
    ensures HeardAt(events[i], replies(i))
  {
    if i < |events| - 1 {
      HeardEach(events[..|events| - 1], replies, i);
    }
  }

  /** What trySaveOff may have done. */
  predicate SaveOffLog(events: seq<Event>, ok: bool) {
    || (!ok && events == [Dialled(false)])
    || (!ok && |events| == 2 && events[0] == Dialled(true)
        && events[1].Sent? && events[1].cmd == "save-off" && !events[1].delivery.Answered?)
    || (ok && |events| == 3 && events[0] == Dialled(true) && events[1] == Sent("save-off", Answered)
        && events[2].Sent? && events[2].cmd == "save-all flush")
  }

  /** What trySaveOn may have done. */
  predicate SaveOnLog(events: seq<Event>) {
    || events == [Dialled(false)]
    || (|events| == 2 && events[0] == Dialled(true) && events[1].Sent? && events[1].cmd == "save-on")
  }

  /** The zip and rotation, which follow each other. */
  predicate WorkLog(events: seq<Event>) {
    && 1 <= |events| <= 2 && events[0].Zipped?
    && (|events| == 2 <==> events[0].ok) && (|events| == 2 ==> events[1].Rotated?)
  }

  /** A whole run: save-on is tried at the very end exactly when save-off was confirmed. */
  predicate RunLog(off: seq<Event>, work: seq<Event>, on: seq<Event>, rcon: bool) {
    && (if rcon then SaveOffLog(off, on != []) else off == [] && on == [])
    && WorkLog(work)
    && (on != [] ==> SaveOnLog(on))
  }

  /** What a run with RCON says to the server: save-off, once confirmed the flush, and then save-on at the end. */
  lemma {:induction false} RunSpelled(off: seq<Event>, work: seq<Event>, on: seq<Event>)
    requires RunLog(off, work, on, true)
    ensures off != [] && off[0].Dialled? && (off[0].ok <==> |off| > 1)
    ensures |off| > 1 ==> off[1].Sent? && off[1].cmd == "save-off" && (off[1].delivery == Answered <==> |off| == 3)
    ensures |off| == 3 ==> off[2].Sent? && off[2].cmd == "save-all flush"
    ensures on != [] <==> |off| == 3
    ensures on != [] ==> on[0].Dialled? && (on[0].ok <==> |on| == 2) && |on| <= 2
    ensures |on| == 2 ==> on[1].Sent? && on[1].cmd == "save-on"
  {
    assert off[0] == Dialled(true) || off == [Dialled(false)];
  }

  lemma RunLogged(off: seq<Event>, work: seq<Event>, on: seq<Event>, rcon: bool, restore: bool)
    requires if rcon then SaveOffLog(off, restore) else off == [] && !restore
    requires WorkLog(work) && if restore then on != [] && SaveOnLog(on) else on == []
    ensures RunLog(off, work, on, rcon)
  {
  }

  /** When a run leaves the server without autosave: the reply to save-off was lost, or save-on did not get through. */
  lemma LeftWithoutAutosave(off: seq<Event>, work: seq<Event>, on: seq<Event>, rcon: bool)
    requires RunLog(off, work, on, rcon)
    ensures !Autosave(off + work + on, true) <==>
      || Sent("save-off", ReplyLost) in off
      || (Sent("save-off", Answered) in off && Sent("save-on", Answered) !in on && Sent("save-on", ReplyLost) !in on)
    ensures !Autosave(off + work, true) <==> Sent("save-off", ReplyLost) in off || Sent("save-off", Answered) in off
  {
    AutosaveOfParts(off + work, on, true);
    AutosaveOfParts(off, work, true);
    if rcon {
      OffPart(off, on != []);
    }
    WorkPart(work, Autosave(off, true));
    if on != [] {
      OnPart(on, Autosave(off + work, true));
    }
  }

  lemma OffPart(off: seq<Event>, ok: bool)
    requires SaveOffLog(off, ok)
    ensures !Autosave(off, true) <==> Sent("save-off", ReplyLost) in off || Sent("save-off", Answered) in off
    ensures Sent("save-off", Answered) in off <==> ok
    ensures !(Sent("save-off", ReplyLost) in off && Sent("save-off", Answered) in off)
  {
    ShortLog(off, true);
  }

  lemma WorkPart(work: seq<Event>, start: bool)
    requires WorkLog(work)
    ensures Autosave(work, start) == start
  {
    ShortLog(work, start);
  }

  lemma OnPart(on: seq<Event>, start: bool)
    requires SaveOnLog(on)
    ensures Autosave(on, start) == (start || Sent("save-on", Answered) in on || Sent("save-on", ReplyLost) in on)
  {
    ShortLog(on, start);
  }

  lemma {:induction false} AutosaveOfParts(a: seq<Event>, b: seq<Event>, start: bool)
    ensures Autosave(a + b, start) == Autosave(b, Autosave(a, start))
  {
    if b == [] {
      assert a + b == a;
    } else {
      assert (a + b)[..|a + b| - 1] == a + b[..|b| - 1];
      AutosaveOfParts(a, b[..|b| - 1], start);
    }
  }

  lemma AutosaveThrough(off: seq<Event>, work: seq<Event>, on: seq<Event>, start: bool)
    requires WorkLog(work)
    ensures Autosave(off + work + on, start) == Autosave(on, Autosave(off, start))
  {
    AutosaveOfParts(off + work, on, start);
    AutosaveOfParts(off, work, start);
    WorkPart(work, Autosave(off, start));
  }

  lemma ShortLog(events: seq<Event>, start: bool)
    requires |events| <= 3
    ensures |events| == 0 ==> Autosave(events, start) == start
    ensures |events| == 1 ==> Autosave(events, start) == AutosaveAfter(events[0], start)
    ensures |events| == 2 ==> Autosave(events, start) == AutosaveAfter(events[1], AutosaveAfter(events[0], start))
    ensures |events| == 3 ==>
      Autosave(events, start) == AutosaveAfter(events[2], AutosaveAfter(events[1], AutosaveAfter(events[0], start)))
  {
    if |events| == 3 {
      assert events[..2][..1] == [events[0]];
    }
  }

  // ----- One run -----

  /** How writing the archive went. */
  datatype Zip = NotCreated | CutShort(data: string) | Complete

  /** Everything that one run depends on. `hidden` files cannot be listed or looked at, `stuck` ones not removed. */
  datatype Run = Run(stamp: string, modTime: int, data: string, rcon: bool, maxBackups: int,
                     worldThere: bool, dirMade: bool, zip: Zip, renames: bool, removesTmp: bool,
                     hidden: set<string>, stuck: set<string>)

  datatype Rotation = Done | Stuck(name: string) | OutOfRange

  datatype Outcome = NothingToDo | NoDir | NoZip | BackedUp(path: string, rotation: Rotation)

  predicate SameAt(f: Folder, g: Folder, name: string) {
    (name in f <==> name in g) && (name in f ==> f[name] == g[name])
  }

  /** What a rotation of `seen` down to `max` did to the folder. */
  ghost predicate RotatedTo(before: Folder, seen: set<string>, max: int, stuck: set<string>, after: Folder,
                            res: Rotation) {
    exists gone: set<string> :: RotationRemoved(before, seen, max, stuck, after, res, gone)
  }

  ghost predicate RotationRemoved(before: Folder, seen: set<string>, max: int, stuck: set<string>, after: Folder,
                                  res: Rotation, gone: set<string>) {
    && after == before - gone && gone !! stuck
    && (max < 0 <==> res.OutOfRange?)
    && (max < 0 ==> gone == {})
    && (max >= 0 ==>
          && NewestKept(before, seen, gone, max)
          && (res.Done? ==> |seen - gone| == if |seen| <= max then |seen| else max)
          && (res.Stuck? ==> |seen - gone| > max && res.name in seen - gone && res.name in stuck))
  }

  /** The journal tells whether the archive was written and the rotation finished. */
  predicate Reports(work: seq<Event>, res: Outcome)
    requires WorkLog(work)
  {
    work[0].ok == res.BackedUp? && (res.BackedUp? ==> work[1].ok == res.rotation.Done?)
  }

  /** What a run that reached the zip did to the backups directory. */
  ghost predicate FolderAfter(before: Folder, run: Run, after: Folder, res: Outcome) {
    var final, tmp := FinalName(run.stamp), TmpName(run.stamp);
    && (res.BackedUp? <==> run.zip.Complete? && run.renames)
    && (res.BackedUp? ==>
          && res.path == final
          && var added := (before - {tmp})[final := Entry(run.modTime, run.data)];
             RotatedTo(added, Seen(added, run.hidden), ResolveMaxBackups(run.maxBackups), run.stuck,
                       after, res.rotation))
    && (!res.BackedUp? ==>
          && res.NoZip?
          && (forall name :: name != tmp ==> SameAt(before, after, name))
          && (tmp in after <==> !run.removesTmp && (run.zip.NotCreated? ==> tmp in before)))
  }

  /** Whatever is not named world_*.zip is as it was. */
  ghost predicate OthersSpared(before: Folder, after: Folder) {
    forall name :: !("world_" <= name) || !EndsIn(name, ".zip") ==> SameAt(before, after, name)
  }

  /** The folder without some of the files seen, and with as many as there are up to max when it finished. */
  predicate LeavesAllBut(before: Folder, seen: set<string>, max: int, after: Folder, res: Rotation, gone: set<string>) {
    && gone <= seen && after == before - gone
    && (res.Done? ==> 0 <= max && |seen - gone| == if |seen| <= max then |seen| else max)
  }

  lemma {:induction false} RotationRemoves(before: Folder, seen: set<string>, max: int, stuck: set<string>,
                                           after: Folder, res: Rotation)
    requires RotatedTo(before, seen, max, stuck, after, res)
    ensures exists gone: set<string> :: LeavesAllBut(before, seen, max, after, res, gone)
  {
    var gone :| RotationRemoved(before, seen, max, stuck, after, res, gone);
    assert max >= 0 ==> NewestKept(before, seen, gone, max);
    assert LeavesAllBut(before, seen, max, after, res, gone);
  }

  lemma {:induction false} WithoutSeen(before: Folder, hidden: set<string>, gone: set<string>)
    requires gone <= Seen(before, hidden)
    ensures OthersSpared(before, before - gone)
    ensures Seen(before - gone, hidden) == Seen(before, hidden) - gone
  {
    forall name | !("world_" <= name) || !EndsIn(name, ".zip")
      ensures name !in Seen(before, hidden)
    {
    }
  }

  lemma {:induction false} RotationSpares(before: Folder, hidden: set<string>, max: int, stuck: set<string>,
                                          after: Folder, res: Rotation)
    requires RotatedTo(before, Seen(before, hidden), max, stuck, after, res)
    ensures OthersSpared(before, after)
    ensures res.Done? ==>
      max >= 0 && var n := |Seen(before, hidden)|; |Seen(after, hidden)| == if n <= max then n else max
  {
    RotationRemoves(before, Seen(before, hidden), max, stuck, after, res);
    var gone: set<string> :| LeavesAllBut(before, Seen(before, hidden), max, after, res, gone);
    WithoutSeen(before, hidden, gone);
  }

  /** A whole run changes nothing that is not named world_*.zip, but for its own temporary file. */
  lemma {:induction false} RunSpares(before: Folder, run: Run, after: Folder, res: Outcome, name: string)
    requires FolderAfter(before, run, after, res)
    requires !("world_" <= name) || !EndsIn(name, ".zip")
    requires name != "world_" + run.stamp + ".zip.tmp"
    ensures SameAt(before, after, name)
  {
    TmpSpelled(run.stamp);
    if res.BackedUp? {
      var added := (before - {TmpName(run.stamp)})[FinalName(run.stamp) := Entry(run.modTime, run.data)];
      RotationSpares(added, run.hidden, ResolveMaxBackups(run.maxBackups), run.stuck, after, res.rotation);
      Naming(run.stamp, run.stamp);
      assert SameAt(added, after, name);
    }
  }

  lemma {:induction false} TmpSpelled(stamp: string)
    ensures TmpName(stamp) == "world_" + stamp + ".zip.tmp"
  {
    assert ".zip" + ".tmp" == ".zip.tmp";
  }

  /** A rotation that finishes leaves as many as there are, up to the limit, which is 12 when none is configured. */
  lemma {:induction false} RunKeeps(before: Folder, run: Run, after: Folder, res: Outcome)
    requires FolderAfter(before, run, after, res) && res.BackedUp? && res.rotation.Done?
    ensures var limit := if run.maxBackups == 0 then 12 else run.maxBackups;
            var added := (before - {TmpName(run.stamp)})[FinalName(run.stamp) := Entry(run.modTime, run.data)];
            var n := |Seen(added, run.hidden)|;
            0 <= limit && |Seen(after, run.hidden)| == if n <= limit then n else limit
  {
    var added := (before - {TmpName(run.stamp)})[FinalName(run.stamp) := Entry(run.modTime, run.data)];
    RotationSpares(added, run.hidden, ResolveMaxBackups(run.maxBackups), run.stuck, after, res.rotation);
  }

  class Site {
    var folder: Folder
    var autosave: bool
    var journal: seq<Event>
    const replies: nat -> Delivery // to the n-th event, where it is a dial or a command

    ghost predicate Valid()
      reads this`journal
    {
      Heard(journal, replies)
    }

    constructor (folder: Folder, autosave: bool, replies: nat -> Delivery)
      ensures Valid()
      ensures this.folder == folder && this.autosave == autosave && journal == [] && this.replies == replies
    {
      this.folder, this.autosave, this.journal, this.replies := folder, autosave, [], replies;
    }

    method Note(e: Event)
      requires Valid() && HeardAt(e, replies(|journal|))
      modifies this`journal, this`autosave
      ensures Valid()
      ensures journal == old(journal) + [e] && autosave == AutosaveAfter(e, old(autosave))
    {
      assert (journal + [e])[..|journal|] == journal;
      journal, autosave := journal + [e], AutosaveAfter(e, autosave);
    }

    method TrySaveOff() returns (ok: bool, ghost events: seq<Event>)
      requires Valid()
      modifies this`journal, this`autosave
      ensures Valid()
      ensures journal == old(journal) + events && SaveOffLog(events, ok)
      ensures autosave == Autosave(events, old(autosave))
    {
      events := [Dialled(replies(|journal|).Answered?)];
      ShortLog(events, autosave);
      Note(Dialled(replies(|journal|).Answered?));
      if journal[|journal| - 1] == Dialled(false) {
        return false, events;
      }
      var saveOff := Sent("save-off", replies(|journal|));
      events := events + [saveOff];
      ShortLog(events, old(autosave));
      Note(saveOff);
      if !saveOff.delivery.Answered? {
        return false, events;
      }
      var flush := Sent("save-all flush", replies(|journal|));
      events := events + [flush];
      ShortLog(events, old(autosave));
      Note(flush);
      ok := true;
    }

    method TrySaveOn() returns (ghost events: seq<Event>)
      requires Valid()
      modifies this`journal, this`autosave
      ensures Valid()
      ensures journal == old(journal) + events && SaveOnLog(events)
      ensures autosave == Autosave(events, old(autosave))
    {
      events := [Dialled(replies(|journal|).Answered?)];
      ShortLog(events, autosave);
      Note(Dialled(replies(|journal|).Answered?));
      if journal[|journal| - 1] == Dialled(false) {
        return;
      }
      var saveOn := Sent("save-on", replies(|journal|));
      events := events + [saveOn];
      ShortLog(events, old(autosave));
      Note(saveOn);
    }

    /** On failure no archive is added; a .tmp stays exactly when one was there to remove and removing it failed. */
    method WriteBackupZip(run: Run) returns (path: Option<string>)
      modifies this`folder
      ensures path.Some? <==> run.zip.Complete? && run.renames
      ensures path.Some? ==> path.value == FinalName(run.stamp)
      ensures path.Some? ==>
        folder == (old(folder) - {TmpName(run.stamp)})[FinalName(run.stamp) := Entry(run.modTime, run.data)]
      ensures path.None? ==> forall name :: name != TmpName(run.stamp) ==> SameAt(old(folder), folder, name)
      ensures path.None? ==>
        (TmpName(run.stamp) in folder <==>
           !run.removesTmp && (run.zip.NotCreated? ==> TmpName(run.stamp) in old(folder)))
    {
      var final := FinalName(run.stamp);
      var tmp := final + ".tmp";
      if !run.zip.NotCreated? {
        folder := folder[tmp := Entry(run.modTime, if run.zip.Complete? then run.data else run.zip.data)];
      }
      if run.zip.Complete? && run.renames {
        folder := (folder - {tmp})[final := folder[tmp]];
        assert folder == (old(folder) - {tmp})[final := Entry(run.modTime, run.data)];
        return Some(final);
      }
      if run.removesTmp {
        folder := folder - {tmp};
      }
      path := None;
    }

    /** The zip and then the rotation. */
    method BackUp(run: Run) returns (res: Outcome, ghost work: seq<Event>)
      requires Valid()
      modifies this
      ensures Valid()
      ensures autosave == old(autosave) && journal == old(journal) + work
      ensures WorkLog(work) && Reports(work, res) && FolderAfter(old(folder), run, folder, res)
    {
      var path := WriteBackupZip(run);
      work := [Zipped(path.Some?)];
      Note(Zipped(path.Some?));
      if path.None? {
        return NoZip, work;
      }
      var rotation := Rotate(ResolveMaxBackups(run.maxBackups), run.hidden, run.stuck);
      work := work + [Rotated(rotation.Done?)];
      Note(Rotated(rotation.Done?));
      res := BackedUp(path.value, rotation);
    }

    /** Whatever happens after save-off was confirmed, even a panic, save-on is tried last. */
    method RunAt(run: Run) returns (res: Outcome, ghost off: seq<Event>, ghost work: seq<Event>, ghost on: seq<Event>)
      requires Valid()
      modifies this
      ensures Valid()
      ensures res.NothingToDo? <==> !run.worldThere
      ensures res.NoDir? <==> run.worldThere && !run.dirMade
      ensures res.NothingToDo? || res.NoDir? ==>
        folder == old(folder) && journal == old(journal) && autosave == old(autosave)
      ensures res.NoZip? || res.BackedUp? ==>
        && journal == old(journal) + off + work + on
        && autosave == Autosave(off + work + on, old(autosave))
        && RunLog(off, work, on, run.rcon) && Reports(work, res) && FolderAfter(old(folder), run, folder, res)
      ensures forall name :: !("world_" <= name) || !EndsIn(name, ".zip") ==>
        name != "world_" + run.stamp + ".zip.tmp" ==> SameAt(old(folder), folder, name)
    {
      off, work, on := [], [], [];
      if !run.worldThere {
        return NothingToDo, off, work, on;
      }
      if !run.dirMade {
        return NoDir, off, work, on;
      }
      res, off, work, on := BackUpBetween(run);
      forall name | (!("world_" <= name) || !EndsIn(name, ".zip")) && name != "world_" + run.stamp + ".zip.tmp"
        ensures SameAt(old(folder), folder, name)
      {
        RunSpares(old(folder), run, folder, res, name);
      }
    }

    /** The rest of runAt, once there is a world and a directory. */
    method BackUpBetween(run: Run)
      returns (res: Outcome, ghost off: seq<Event>, ghost work: seq<Event>, ghost on: seq<Event>)
      requires Valid()
      modifies this
      ensures Valid()
      ensures res.NoZip? || res.BackedUp?
      ensures journal == old(journal) + off + work + on
      ensures autosave == Autosave(off + work + on, old(autosave))
      ensures RunLog(off, work, on, run.rcon) && Reports(work, res) && FolderAfter(old(folder), run, folder, res)
    {
      var restore;
      restore, off := SaveOffIf(run.rcon);
      res, work := BackUp(run);
      on := SaveOnIf(restore);
      RunLogged(off, work, on, run.rcon, restore);
      AutosaveThrough(off, work, on, old(autosave));
    }

    method SaveOffIf(rcon: bool) returns (restore: bool, ghost off: seq<Event>)
      requires Valid()
      modifies this`journal, this`autosave
      ensures Valid()
      ensures journal == old(journal) + off
      ensures if rcon then SaveOffLog(off, restore) else off == [] && !restore
      ensures autosave == Autosave(off, old(autosave))
    {
      restore, off := false, [];
      if rcon {
        restore, off := TrySaveOff();
      }
    }

    method SaveOnIf(restore: bool) returns (ghost on: seq<Event>)
      requires Valid()
      modifies this`journal, this`autosave
      ensures Valid()
      ensures journal == old(journal) + on
      ensures if restore then on != [] && SaveOnLog(on) else on == []
      ensures autosave == Autosave(on, old(autosave))
    {
      on := [];
      if restore {
        on := TrySaveOn();
      }
    }

    method Glob() returns (matches: seq<string>)
      ensures multiset(matches) == multiset(Seen(folder, {}))
    {
      var rest := Seen(folder, {});
      matches := [];
      while rest != {}
        invariant rest <= Seen(folder, {})
        invariant multiset(matches) == multiset(Seen(folder, {}) - rest)
      {
        var name :| name in rest;
        matches, rest := matches + [name], rest - {name};
      }
      assert Seen(folder, {}) - rest == Seen(folder, {});
    }

    method Rotate(maxBackups: int, hidden: set<string>, stuck: set<string>) returns (res: Rotation)
      modifies this`folder
      ensures RotatedTo(old(folder), Seen(old(folder), hidden), maxBackups, stuck, folder, res)
      ensures OthersSpared(old(folder), folder)
    {
      res := RotateFiles(maxBackups, hidden, stuck);
      RotationSpares(old(folder), hidden, maxBackups, stuck, folder, res);
    }

    method RotateFiles(maxBackups: int, hidden: set<string>, stuck: set<string>) returns (res: Rotation)
      modifies this`folder
      ensures RotatedTo(old(folder), Seen(old(folder), hidden), maxBackups, stuck, folder, res)
    {
      var files := Stat(hidden);
      SortNewestFirst(files);
      ghost var before, seen := folder, Seen(folder, hidden);
      if maxBackups < 0 {
        PanicKeepsAll(before, seen, maxBackups, stuck);
        return OutOfRange;
      }
      ListingSize(files[..], folder, seen);
      if files.Length <= maxBackups {
        KeepAll(before, seen, maxBackups, stuck);
        return Done;
      }
      var n := RemoveFrom(files, maxBackups, stuck);
      CutIsRotation(files[..], before, seen, maxBackups, stuck, n);
      res := if n < files.Length then Stuck(files[n].name) else Done;
    }

    /** The loop over files[maxBackups:], up to the first file that cannot be removed. */
    method RemoveFrom(files: array<Found>, from: nat, stuck: set<string>) returns (n: nat)
      requires from <= files.Length
      modifies this`folder
      ensures from <= n <= files.Length
      ensures n < files.Length ==> files[n].name in stuck
      ensures Names(files[from..n]) !! stuck && folder == old(folder) - Names(files[from..n])
    {
      n := from;
      assert folder == folder - Names(files[from..from]);
      while n < files.Length && files[n].name !in stuck
        invariant from <= n <= files.Length
        invariant folder == old(folder) - Names(files[from..n])
        invariant Names(files[from..n]) !! stuck
      {
        assert files[from..n + 1] == files[from..n] + [files[n]];
        NamesGrow(files[from..n], files[n]);
        folder := folder - {files[n].name};
        n := n + 1;
      }
    }

    /** os.Stat over the matches, in the order of the listing; the ones it fails on are skipped. */
    method Stat(hidden: set<string>) returns (files: array<Found>)
      ensures fresh(files) && Lists(files[..], folder, Seen(folder, hidden))
    {
      var matches := Glob();
      var found: seq<Found> := [];
      for i := 0 to |matches|
        invariant Lists(found, folder, Shown(matches[..i], hidden))
      {
        StatStep(matches, hidden, folder, found, i);
        if matches[i] !in hidden {
          found := found + [Found(matches[i], folder[matches[i]].modTime)];
        }
      }
      assert matches[..|matches|] == matches;
      AllShown(matches, hidden, folder);
      files := new Found[|found|](i requires 0 <= i < |found| => found[i]);
      assert files[..] == found;
    }
  }

  lemma NoRepeats(matches: seq<string>, all: set<string>)
    requires multiset(matches) == multiset(all)
    ensures forall i, j :: 0 <= i < j < |matches| ==> matches[i] != matches[j]
  {
    forall i, j | 0 <= i < j < |matches|
      ensures matches[i] != matches[j]
    {
      Repeated(matches, i, j);
      assert multiset(matches)[matches[j]] <= 1;
    }
  }

  function Shown(matches: seq<string>, hidden: set<string>): set<string> {
    set m | m in matches && m !in hidden
  }

  lemma StatStep(matches: seq<string>, hidden: set<string>, folder: Folder, found: seq<Found>, i: nat)
    requires multiset(matches) == multiset(Seen(folder, {})) && i < |matches|
    requires Lists(found, folder, Shown(matches[..i], hidden))
    ensures matches[i] in folder
    ensures matches[i] in hidden ==> Shown(matches[..i + 1], hidden) == Shown(matches[..i], hidden)
    ensures matches[i] !in hidden ==>
      Lists(found + [Found(matches[i], folder[matches[i]].modTime)], folder, Shown(matches[..i + 1], hidden))
  {
    var m := matches[i];
    assert m in multiset(matches);
    NoRepeats(matches, Seen(folder, {}));
    assert m !in matches[..i];
    assert matches[..i + 1] == matches[..i] + [m];
    if m !in hidden {
      assert Shown(matches[..i + 1], hidden) == Shown(matches[..i], hidden) + {m};
      FoundGrows(folder, Shown(matches[..i], hidden), m, found);
    }
  }

  lemma FoundGrows(folder: Folder, done: set<string>, m: string, found: seq<Found>)
    requires Lists(found, folder, done) && m in folder && m !in done
    ensures Lists(found + [Found(m, folder[m].modTime)], folder, done + {m})
  {
    assert FoundIn(folder, done + {m}) == FoundIn(folder, done) + {Found(m, folder[m].modTime)};
  }

  lemma AllShown(matches: seq<string>, hidden: set<string>, folder: Folder)
    requires multiset(matches) == multiset(Seen(folder, {}))
    ensures Shown(matches, hidden) == Seen(folder, hidden)
  {
    forall name
      ensures name in matches <==> name in Seen(folder, {})
    {
      assert name in multiset(matches) <==> name in Seen(folder, {});
    }
  }

  lemma NamesGrow(files: seq<Found>, f: Found)
    ensures Names(files + [f]) == Names(files) + {f.name}
  {
    forall i | 0 <= i < |files|
      ensures files[i].name in Names(files + [f])
    {
      assert (files + [f])[i] == files[i];
    }
    assert (files + [f])[|files|] == f;
  }

  lemma ListingSize(files: seq<Found>, folder: Folder, seen: set<string>)
    requires Lists(files, folder, seen) && NewestFirst(files)
    ensures |files| == |seen|
  {
    CutSizes(files, folder, seen, |files|, |files|);
  }

  lemma PanicKeepsAll(folder: Folder, seen: set<string>, max: int, stuck: set<string>)
    requires max < 0
    ensures RotatedTo(folder, seen, max, stuck, folder, OutOfRange)
  {
    assert folder - {} == folder;
    assert RotationRemoved(folder, seen, max, stuck, folder, OutOfRange, {});
  }

  lemma CutIsRotation(files: seq<Found>, folder: Folder, seen: set<string>, max: nat, stuck: set<string>, n: nat)
    requires Lists(files, folder, seen) && NewestFirst(files) && max <= n <= |files|
    requires n < |files| ==> files[n].name in stuck
    requires Names(files[max..n]) !! stuck
    ensures RotatedTo(folder, seen, max, stuck, folder - Names(files[max..n]),
                      if n < |files| then Stuck(files[n].name) else Done)
  {
    CutKeepsNewest(files, folder, seen, max, n);
    CutSizes(files, folder, seen, max, n);
    if n < |files| {
      NotYetCut(files, folder, seen, max, n);
    }
    assert RotationRemoved(folder, seen, max, stuck, folder - Names(files[max..n]),
                           if n < |files| then Stuck(files[n].name) else Done, Names(files[max..n]));
  }

  lemma KeepAll(folder: Folder, seen: set<string>, max: nat, stuck: set<string>)
    requires seen <= folder.Keys && |seen| <= max
    ensures RotatedTo(folder, seen, max, stuck, folder, Done)
  {
    assert folder - {} == folder && seen - {} == seen;
    assert RotationRemoved(folder, seen, max, stuck, folder, Done, {});
  }

  lemma NotYetCut(files: seq<Found>, folder: Folder, seen: set<string>, keep: nat, i: nat)
    requires Lists(files, folder, seen) && keep <= i < |files|
    ensures files[i].name in seen - Names(files[keep..i])
  {
    InListing(files, folder, seen, i);
    forall b: nat | b < i - keep
      ensures files[keep..i][b].name != files[i].name
    {
      NoTwins(files, folder, seen, keep + b, i);
    }
  }

  method Swap(files: array<Found>, i: nat, j: nat)
    requires i < files.Length && j < files.Length
    modifies files
    ensures files[..] == old(files[..])[i := old(files[j])][j := old(files[i])]
    ensures multiset(files[..]) == multiset(old(files[..]))
  {
    files[i], files[j] := files[j], files[i];
  }

  /** The first i are sorted, and nothing behind them is newer. */
  ghost predicate SortedUpTo(files: seq<Found>, i: nat) {
    forall a, b :: 0 <= a < b < |files| && a < i ==> files[a].modTime >= files[b].modTime
  }

  lemma SortedOneMore(files: seq<Found>, i: nat, newest: nat)
    requires SortedUpTo(files, i) && i <= newest < |files|
    requires forall b :: i <= b < |files| ==> files[newest].modTime >= files[b].modTime
    ensures SortedUpTo(files[i := files[newest]][newest := files[i]], i + 1)
  {
  }

  /** sort.Slice, newest first; which of two equally old files comes first is left open. */
  method SortNewestFirst(files: array<Found>)
    modifies files
    ensures NewestFirst(files[..]) && multiset(files[..]) == multiset(old(files[..]))
  {
    for i := 0 to files.Length
      invariant SortedUpTo(files[..], i) && multiset(files[..]) == multiset(old(files[..]))
    {
      var newest := NewestFrom(files, i);
      SortedOneMore(files[..], i, newest);
      Swap(files, i, newest);
    }
  }

  method NewestFrom(files: array<Found>, i: nat) returns (newest: nat)
    requires i < files.Length
    ensures i <= newest < files.Length
    ensures forall b :: i <= b < files.Length ==> files[newest].modTime >= files[b].modTime
  {
    newest := i;
    for j := i + 1 to files.Length
      invariant i <= newest < files.Length
      invariant forall b :: i <= b < j ==> files[newest].modTime >= files[b].modTime
    {
      if files[j].modTime > files[newest].modTime {
        newest := j;
      }
    }
  }

  // ----- A run that leaves the server without autosave -----

  /** It can happen: the server carries save-off out but its reply is lost, so save-on is never sent. */
  method LoseReply(run: Run) returns (site: Site, ghost work: seq<Event>)
    requires run.worldThere && run.dirMade && run.rcon
    ensures site.journal == [Dialled(true), Sent("save-off", ReplyLost)] + work && WorkLog(work)
    ensures !site.autosave
  {
    site := new Site(map[], true, n => if n == 0 then Answered else ReplyLost);
    ghost var off, on;
    var res;
    res, off, work, on := site.RunAt(run);
    assert site.journal == off + work + on;
    HeardEach(site.journal, site.replies, 0);
    HeardEach(site.journal, site.replies, 1);
    assert off == [Dialled(true), Sent("save-off", ReplyLost)];
    LeftWithoutAutosave(off, work, on, run.rcon);
    assert [] + off + work + [] == off + work && off + work + [] == off + work;
  }
}
