/** What a series of successful backups leaves in a directory that was empty before the first. */
module Retention {
  import opened Backup

  /** Runs that listed, zipped, renamed and removed without failing. */
  predicate Succeeds(run: Run) {
    && run.worldThere && run.dirMade && run.zip.Complete? && run.renames
    && run.hidden == {} && run.stuck == {}
  }

  ghost predicate InOrder(runs: seq<Run>) {
    forall i, j :: 0 <= i < j < |runs| ==> runs[i].modTime < runs[j].modTime
  }

  ghost predicate BackedUpTo(folder: Folder, run: Run, max: nat, after: Folder) {
    && Succeeds(run) && ResolveMaxBackups(run.maxBackups) == max
    && FolderAfter(folder, run, after, BackedUp(FinalName(run.stamp), Done))
  }

  ghost predicate StepTaken(runs: seq<Run>, max: nat, folders: seq<Folder>, k: nat) {
    k < |runs| && k + 1 < |folders| && BackedUpTo(folders[k], runs[k], max, folders[k + 1])
  }

  /** folders[k] is the directory after k runs. */
  ghost predicate Series(runs: seq<Run>, max: nat, folders: seq<Folder>) {
    && |folders| == |runs| + 1 && folders[0] == map[] && InOrder(runs)
    && forall k: nat :: k < |runs| ==> StepTaken(runs, max, folders, k)
  }

  function AtMost(max: nat, n: nat): nat {
    if n <= max then n else max
  }

  // ----- The specification: a history without any deleting -----

  function Stamps(runs: seq<Run>): set<string> {
    set i | 0 <= i < |runs| :: runs[i].stamp
  }

  /** The last run with this stamp: a later one replaces the archive of an earlier one. */
  function LastWith(runs: seq<Run>, stamp: string): (k: nat)
    requires stamp in Stamps(runs)
    ensures k < |runs| && runs[k].stamp == stamp
    ensures forall i :: k < i < |runs| ==> runs[i].stamp != stamp
  {
    var last := |runs| - 1;
    if runs[last].stamp == stamp then last
    else
      assert stamp in Stamps(runs[..last]) by {
        var i :| 0 <= i < |runs| && runs[i].stamp == stamp;
        assert runs[..last][i] == runs[i];
      }
      LastWith(runs[..last], stamp)
  }

  /** The stamps written after this one was last written. */
  function Since(runs: seq<Run>, stamp: string): set<string>
    requires stamp in Stamps(runs)
  {
    set i | LastWith(runs, stamp) < i < |runs| :: runs[i].stamp
  }

  function EntryOf(run: Run): Entry {
    Entry(run.modTime, run.data)
  }

  predicate IsBackup(name: string) {
    |name| >= 10 && name == FinalName(name[6..|name| - 4])
  }

  function StampOf(name: string): string
    requires IsBackup(name)
  {
    name[6..|name| - 4]
  }

  ghost predicate RemainsAt(runs: seq<Run>, max: nat, folder: Folder, name: string) {
    name in folder <==> IsBackup(name) && StampOf(name) in Stamps(runs) && |Since(runs, StampOf(name))| < max
  }

  ghost predicate TracksAt(runs: seq<Run>, folder: Folder, name: string) {
    name in folder ==>
      IsBackup(name) && StampOf(name) in Stamps(runs) && folder[name] == EntryOf(runs[LastWith(runs, StampOf(name))])
  }

  ghost predicate Tracks(runs: seq<Run>, folder: Folder) {
    forall name {:trigger name in folder} {:trigger TracksAt(runs, folder, name)} :: TracksAt(runs, folder, name)
  }

  /** A backup is there exactly while fewer than max other stamps have been written since, and it is the last with
      its stamp. */
  ghost predicate Remains(runs: seq<Run>, max: nat, folder: Folder) {
    && (forall name {:trigger name in folder} {:trigger RemainsAt(runs, max, folder, name)} ::
          RemainsAt(runs, max, folder, name))
    && Tracks(runs, folder)
  }

  // ----- Facts about the history -----

  lemma NameOf(stamp: string)
    ensures IsBackup(FinalName(stamp)) && StampOf(FinalName(stamp)) == stamp
  {
  }

  lemma SinceMeansLater(runs: seq<Run>, s: string, x: string)
    requires s in Stamps(runs)
    ensures x in Since(runs, s) <==> x in Stamps(runs) && LastWith(runs, x) > LastWith(runs, s)
  {
  }

  lemma SinceShrinks(runs: seq<Run>, s: string, x: string)
    requires s in Stamps(runs) && x in Since(runs, s)
    ensures x in Stamps(runs) && Since(runs, x) <= Since(runs, s) && |Since(runs, x)| <= |Since(runs, s)|
  {
    SinceMeansLater(runs, s, x);
    SubsetSize(Since(runs, x), Since(runs, s));
  }

  lemma StampsGrow(runs: seq<Run>, run: Run)
    ensures Stamps(runs + [run]) == Stamps(runs) + {run.stamp}
  {
    var more := runs + [run];
    assert more[|runs|] == run;
    forall i | 0 <= i < |runs|
      ensures runs[i].stamp in Stamps(more)
    {
      assert more[i] == runs[i];
    }
  }

  lemma LastOfMore(runs: seq<Run>, run: Run, s: string)
    requires s in Stamps(runs + [run])
    ensures s == run.stamp ==> LastWith(runs + [run], s) == |runs|
    ensures s != run.stamp ==> s in Stamps(runs) && LastWith(runs + [run], s) == LastWith(runs, s)
  {
    var more := runs + [run];
    StampsGrow(runs, run);
    assert more[..|runs|] == runs && more[|runs|] == run;
  }

  lemma OneMore(runs: seq<Run>, run: Run, s: string)
    requires s in Stamps(runs + [run])
    ensures Stamps(runs + [run]) == Stamps(runs) + {run.stamp}
    ensures s == run.stamp ==> LastWith(runs + [run], s) == |runs| && Since(runs + [run], s) == {}
    ensures s != run.stamp ==>
      LastWith(runs + [run], s) == LastWith(runs, s) && Since(runs + [run], s) == Since(runs, s) + {run.stamp}
  {
    StampsGrow(runs, run);
    LastOfMore(runs, run, s);
    if s != run.stamp {
      SinceGrows(runs, run, s);
    }
  }

  lemma SinceGrows(runs: seq<Run>, run: Run, s: string)
    requires s in Stamps(runs) && s in Stamps(runs + [run]) && LastWith(runs + [run], s) == LastWith(runs, s)
    ensures Since(runs + [run], s) == Since(runs, s) + {run.stamp}
  {
    var more := runs + [run];
    assert more[|runs|] == run;
    forall i | LastWith(runs, s) < i < |runs|
      ensures runs[i].stamp in Since(more, s)
    {
      assert more[i] == runs[i];
    }
  }

  // ----- One more run -----

  function NamesOf(stamps: set<string>): set<string> {
    set s | s in stamps :: FinalName(s)
  }

  lemma {:induction false} NamesOfSize(stamps: set<string>)
    ensures |NamesOf(stamps)| == |stamps|
  {
    if stamps != {} {
      var s :| s in stamps;
      NamesOfSize(stamps - {s});
      assert NamesOf(stamps) == NamesOf(stamps - {s}) + {FinalName(s)};
      forall x | x in stamps - {s}
        ensures FinalName(x) != FinalName(s)
      {
        Naming(x, s);
      }
    }
  }

  /** Every backup written after one that is there is there too. */
  ghost predicate Closed(runs: seq<Run>, folder: Folder)
    requires Tracks(runs, folder)
  {
    forall name, x :: name in folder && x in Since(runs, StampOf(name)) ==> FinalName(x) in folder
  }

  lemma AboveIsSince(runs: seq<Run>, folder: Folder, name: string)
    requires InOrder(runs) && Tracks(runs, folder) && Closed(runs, folder) && name in folder
    ensures |Above(folder, folder.Keys, folder[name].modTime)| == |Since(runs, StampOf(name))|
  {
    var above, names := Above(folder, folder.Keys, folder[name].modTime), NamesOf(Since(runs, StampOf(name)));
    forall other | other in above
      ensures other in names
    {
      SinceMeansLater(runs, StampOf(name), StampOf(other));
      assert FinalName(StampOf(other)) == other;
    }
    forall x | x in Since(runs, StampOf(name))
      ensures FinalName(x) in above
    {
      SinceMeansLater(runs, StampOf(name), x);
      NameOf(x);
    }
    assert above == names;
    NamesOfSize(Since(runs, StampOf(name)));
  }

  /** The directory between writing the archive and rotating. */
  function Added(folder: Folder, run: Run): Folder {
    folder[FinalName(run.stamp) := EntryOf(run)]
  }

  lemma AddedTracks(runs: seq<Run>, max: nat, folder: Folder, run: Run)
    requires max >= 1 && Remains(runs, max, folder)
    ensures Tracks(runs + [run], Added(folder, run)) && Closed(runs + [run], Added(folder, run))
  {
    var more, added := runs + [run], Added(folder, run);
    forall name
      ensures TracksAt(more, added, name)
    {
      AddedTracksAt(runs, max, folder, run, name);
    }
    forall name, x | name in added && TracksAt(more, added, name) && x in Since(more, StampOf(name))
      ensures FinalName(x) in added
    {
      AddedClosed(runs, max, folder, run, name, x);
    }
  }

  lemma AddedTracksAt(runs: seq<Run>, max: nat, folder: Folder, run: Run, name: string)
    requires Remains(runs, max, folder)
    ensures TracksAt(runs + [run], Added(folder, run), name)
  {
    NameOf(run.stamp);
    if name in Added(folder, run) {
      InBoth(runs, run, StampOf(name));
      LastOfMore(runs, run, StampOf(name));
      assert name == FinalName(StampOf(name));
    }
  }

  lemma AddedClosed(runs: seq<Run>, max: nat, folder: Folder, run: Run, name: string, x: string)
    requires max >= 1 && Remains(runs, max, folder)
    requires name in Added(folder, run) && IsBackup(name) && StampOf(name) in Stamps(runs + [run])
    requires x in Since(runs + [run], StampOf(name))
    ensures FinalName(x) in Added(folder, run)
  {
    NameOf(run.stamp);
    OneMore(runs, run, StampOf(name));
    if x != run.stamp {
      NameOf(x);
      SinceShrinks(runs, StampOf(name), x);
      assert RemainsAt(runs, max, folder, FinalName(x));
    }
  }

  lemma InBoth(runs: seq<Run>, run: Run, s: string)
    requires s in Stamps(runs) || s == run.stamp
    ensures s in Stamps(runs + [run])
  {
    if s in Stamps(runs) {
      var i :| 0 <= i < |runs| && runs[i].stamp == s;
      assert (runs + [run])[i] == runs[i];
    } else {
      assert (runs + [run])[|runs|] == run;
    }
  }

  lemma AddedApart(runs: seq<Run>, folder: Folder, a: string, b: string)
    requires InOrder(runs) && Tracks(runs, folder) && a in folder && b in folder && a != b
    ensures folder[a].modTime != folder[b].modTime
  {
    assert StampOf(a) != StampOf(b);
  }

  lemma AllSeen(folder: Folder)
    requires forall name :: name in folder ==> Matches(name)
    ensures Seen(folder, {}) == folder.Keys
  {
  }

  lemma AllMatch(runs: seq<Run>, folder: Folder)
    requires Tracks(runs, folder)
    ensures forall name :: name in folder ==> Matches(name)
  {
    forall name | name in folder
      ensures Matches(name)
    {
      Naming(StampOf(name), StampOf(name));
    }
  }

  lemma NothingToRemove(folder: Folder, tmp: string, final: string, entry: Entry)
    requires tmp !in folder
    ensures (folder - {tmp})[final := entry] == folder[final := entry]
  {
    assert folder - {tmp} == folder;
  }

  /** What a successful run does when every file is a backup. */
  lemma RunAdds(runs: seq<Run>, max: nat, folder: Folder, run: Run, after: Folder)
    requires Tracks(runs, folder) && BackedUpTo(folder, run, max, after)
    ensures RotatedTo(Added(folder, run), Added(folder, run).Keys, max, {}, after, Done)
  {
    AllMatch(runs, folder);
    Naming(run.stamp, run.stamp);
    NothingToRemove(folder, TmpName(run.stamp), FinalName(run.stamp), EntryOf(run));
    AllSeen(Added(folder, run));
  }

  lemma StaysInAdded(runs: seq<Run>, max: nat, folder: Folder, run: Run, gone: set<string>, name: string)
    requires max >= 1 && Remains(runs, max, folder) && InOrder(runs + [run])
    requires var added := Added(folder, run);
             && NewestKept(added, added.Keys, gone, max)
             && |added.Keys - gone| == (if |added.Keys| <= max then |added.Keys| else max)
    requires name in Added(folder, run)
    ensures StampOf(name) in Stamps(runs + [run])
    ensures name !in gone <==> |Since(runs + [run], StampOf(name))| < max
  {
    var more, added := runs + [run], Added(folder, run);
    AddedTracks(runs, max, folder, run);
    forall a, b | a in added && b in added && a != b
      ensures added[a].modTime != added[b].modTime
    {
      AddedApart(more, added, a, b);
    }
    AboveIsSince(more, added, name);
    StaysWhenFewNewer(added, added.Keys, gone, max, name);
  }

  /** What an earlier rotation removed stays out, unless its stamp is written again. */
  lemma NotInAdded(runs: seq<Run>, max: nat, folder: Folder, run: Run, name: string)
    requires max >= 1 && Remains(runs, max, folder) && name !in Added(folder, run)
    requires IsBackup(name) && StampOf(name) in Stamps(runs + [run])
    ensures |Since(runs + [run], StampOf(name))| >= max
  {
    OneMore(runs, run, StampOf(name));
    assert StampOf(name) != run.stamp;
    SubsetSize(Since(runs, StampOf(name)), Since(runs + [run], StampOf(name)));
  }

  lemma AfterRotation(runs: seq<Run>, max: nat, folder: Folder, run: Run, after: Folder, gone: set<string>)
    requires max >= 1 && Remains(runs, max, folder) && InOrder(runs + [run])
    requires RotationRemoved(Added(folder, run), Added(folder, run).Keys, max, {}, after, Done, gone)
    ensures Remains(runs + [run], max, after)
  {
    AddedTracks(runs, max, folder, run);
    forall name
      ensures RemainsAt(runs + [run], max, after, name) && TracksAt(runs + [run], after, name)
    {
      AfterRotationAt(runs, max, folder, run, after, gone, name);
    }
  }

  lemma AfterRotationAt(runs: seq<Run>, max: nat, folder: Folder, run: Run, after: Folder, gone: set<string>,
                        name: string)
    requires max >= 1 && Remains(runs, max, folder) && InOrder(runs + [run])
    requires RotationRemoved(Added(folder, run), Added(folder, run).Keys, max, {}, after, Done, gone)
    requires TracksAt(runs + [run], Added(folder, run), name)
    ensures RemainsAt(runs + [run], max, after, name) && TracksAt(runs + [run], after, name)
  {
    if name in Added(folder, run) {
      StaysInAdded(runs, max, folder, run, gone, name);
    } else if IsBackup(name) && StampOf(name) in Stamps(runs + [run]) {
      NotInAdded(runs, max, folder, run, name);
    }
  }

  lemma OneRun(runs: seq<Run>, max: nat, folder: Folder, run: Run, after: Folder)
    requires max >= 1 && Remains(runs, max, folder) && InOrder(runs + [run])
    requires BackedUpTo(folder, run, max, after)
    ensures Remains(runs + [run], max, after) && |after| == AtMost(max, |Added(folder, run)|)
  {
    RunAdds(runs, max, folder, run, after);
    var gone :| RotationRemoved(Added(folder, run), Added(folder, run).Keys, max, {}, after, Done, gone);
    AfterRotation(runs, max, folder, run, after, gone);
    assert after.Keys == Added(folder, run).Keys - gone;
  }

  // ----- Any number of runs -----

  lemma {:induction false} RemainAfter(runs: seq<Run>, max: nat, folders: seq<Folder>, k: nat)
    requires Series(runs, max, folders) && max >= 1 && k <= |runs|
    ensures Remains(runs[..k], max, folders[k]) && |folders[k]| == AtMost(max, |Stamps(runs[..k])|)
  {
    if k == 0 {
      NoneYet(runs[..k], max);
    } else {
      RemainAfter(runs, max, folders, k - 1);
      OneLonger(runs, k);
      assert StepTaken(runs, max, folders, k - 1);
      OneMoreRun(runs[..k - 1], max, folders[k - 1], runs[k - 1], folders[k]);
    }
  }

  lemma OneLonger(runs: seq<Run>, k: nat)
    requires InOrder(runs) && 0 < k <= |runs|
    ensures runs[..k] == runs[..k - 1] + [runs[k - 1]] && InOrder(runs[..k - 1] + [runs[k - 1]])
  {
    assert runs[..k] == runs[..k - 1] + [runs[k - 1]];
  }

  lemma NoneYet(runs: seq<Run>, max: nat)
    requires runs == []
    ensures Remains(runs, max, map[]) && Stamps(runs) == {}
  {
  }

  /** What remains, and that it is as many backups as there were different stamps, up to max. */
  lemma BackupsRemain(runs: seq<Run>, max: nat, folders: seq<Folder>)
    requires Series(runs, max, folders) && max >= 1
    ensures Remains(runs, max, folders[|runs|]) && |folders[|runs|]| == AtMost(max, |Stamps(runs)|)
  {
    assert runs[..|runs|] == runs;
    RemainAfter(runs, max, folders, |runs|);
  }

  lemma OneMoreRun(rest: seq<Run>, max: nat, folder: Folder, run: Run, after: Folder)
    requires max >= 1 && Remains(rest, max, folder) && |folder| == AtMost(max, |Stamps(rest)|)
    requires InOrder(rest + [run]) && BackedUpTo(folder, run, max, after)
    ensures Remains(rest + [run], max, after) && |after| == AtMost(max, |Stamps(rest + [run])|)
  {
    OneRun(rest, max, folder, run, after);
    SizeAfter(rest, max, folder, run);
  }

  lemma AddSize<T>(s: set<T>, x: T)
    ensures |s + {x}| == |s| + if x in s then 0 else 1
  {
    if x in s {
      assert s + {x} == s;
    }
  }

  lemma SinceSize(runs: seq<Run>, s: string)
    requires s in Stamps(runs)
    ensures |Since(runs, s)| < |Stamps(runs)|
  {
    SubsetSize(Since(runs, s), Stamps(runs) - {s});
  }

  lemma SizeAfter(runs: seq<Run>, max: nat, folder: Folder, run: Run)
    requires max >= 1 && Remains(runs, max, folder) && |folder| == AtMost(max, |Stamps(runs)|)
    ensures AtMost(max, |Added(folder, run)|) == AtMost(max, |Stamps(runs + [run])|)
  {
    InBoth(runs, run, run.stamp);
    OneMore(runs, run, run.stamp);
    NameOf(run.stamp);
    assert Added(folder, run).Keys == folder.Keys + {FinalName(run.stamp)};
    AddSize(folder.Keys, FinalName(run.stamp));
    AddSize(Stamps(runs), run.stamp);
    if run.stamp in Stamps(runs) {
      SinceSize(runs, run.stamp);
    }
  }

  predicate Distinct(runs: seq<Run>, from: nat) {
    forall i, j :: from <= i < j < |runs| ==> runs[i].stamp != runs[j].stamp
  }

  /** The runs from `from` on each have their backup, and there is no other. */
  predicate HoldsJust(runs: seq<Run>, from: nat, left: Folder)
    requires from <= |runs|
  {
    && |left| == |runs| - from
    && forall i :: from <= i < |runs| ==>
         FinalName(runs[i].stamp) in left && left[FinalName(runs[i].stamp)] == EntryOf(runs[i])
  }

  /** The last max backups remain, and nothing else, exactly when no two of them were made in the same second. */
  lemma LastBackupsRemain(runs: seq<Run>, max: nat, folders: seq<Folder>)
    requires Series(runs, max, folders) && max >= 1
    ensures var from := |runs| - AtMost(max, |runs|); Distinct(runs, from) <==> HoldsJust(runs, from, folders[|runs|])
  {
    BackupsRemain(runs, max, folders);
    var from, left := |runs| - AtMost(max, |runs|), folders[|runs|];
    if Distinct(runs, from) {
      DistinctRemain(runs, max, left, from);
    }
    if HoldsJust(runs, from, left) {
      OneEntryEach(runs, left, from);
    }
  }

  lemma DistinctRemain(runs: seq<Run>, max: nat, left: Folder, from: nat)
    requires Remains(runs, max, left) && |left| == AtMost(max, |Stamps(runs)|)
    requires from == |runs| - AtMost(max, |runs|) && Distinct(runs, from)
    ensures HoldsJust(runs, from, left)
  {
    forall i: nat | from <= i < |runs|
      ensures FinalName(runs[i].stamp) in left && left[FinalName(runs[i].stamp)] == EntryOf(runs[i])
    {
      RecentRemains(runs, max, left, from, i);
    }
    RecentCount(runs, from);
  }

  lemma OneEntryEach(runs: seq<Run>, left: Folder, from: nat)
    requires from <= |runs| && HoldsJust(runs, from, left) && InOrder(runs)
    ensures Distinct(runs, from)
  {
    forall i, j | from <= i < j < |runs|
      ensures runs[i].stamp != runs[j].stamp
    {
      assert EntryOf(runs[i]) != EntryOf(runs[j]);
    }
  }

  lemma RecentRemains(runs: seq<Run>, max: nat, left: Folder, from: nat, i: nat)
    requires Remains(runs, max, left) && from <= i < |runs| && |runs| - from <= max
    requires Distinct(runs, from)
    ensures FinalName(runs[i].stamp) in left && left[FinalName(runs[i].stamp)] == EntryOf(runs[i])
  {
    NameOf(runs[i].stamp);
    assert LastWith(runs, runs[i].stamp) == i;
    FewStamps(runs[i + 1..]);
    forall x | x in Since(runs, runs[i].stamp)
      ensures x in Stamps(runs[i + 1..])
    {
      var j :| i < j < |runs| && runs[j].stamp == x;
      assert runs[i + 1..][j - i - 1] == runs[j];
    }
    SubsetSize(Since(runs, runs[i].stamp), Stamps(runs[i + 1..]));
  }

  lemma {:induction false} FewStamps(runs: seq<Run>)
    ensures |Stamps(runs)| <= |runs|
    ensures Distinct(runs, 0) ==> |Stamps(runs)| == |runs|
  {
    if runs != [] {
      var rest, run := runs[..|runs| - 1], runs[|runs| - 1];
      FewStamps(rest);
      assert rest + [run] == runs;
      InBoth(rest, run, run.stamp);
      OneMore(rest, run, run.stamp);
      AddSize(Stamps(rest), run.stamp);
    }
  }

  lemma RecentCount(runs: seq<Run>, from: nat)
    requires from <= |runs|
    requires Distinct(runs, from)
    ensures |runs| - from <= |Stamps(runs)| <= |runs|
  {
    FewStamps(runs);
    FewStamps(runs[from..]);
    forall x | x in Stamps(runs[from..])
      ensures x in Stamps(runs)
    {
      var i :| 0 <= i < |runs| - from && runs[from..][i].stamp == x;
      assert runs[from + i].stamp == x;
    }
    SubsetSize(Stamps(runs[from..]), Stamps(runs));
  }

  // ----- A series that loses one -----

  /** A run that meets no failure. */
  function Plain(stamp: string, modTime: int, data: string): Run {
    Run(stamp, modTime, data, false, 2, true, true, Complete, true, true, {}, {})
  }

  function Replaced(stamp: string, modTime: int, data: string): Folder {
    map[FinalName(stamp) := Entry(modTime, data)]
  }

  lemma OnlyFile(folder: Folder, tmp: string, final: string, entry: Entry)
    requires folder.Keys <= {final} && tmp != final
    ensures (folder - {tmp})[final := entry] == map[final := entry]
  {
  }

  lemma OneFileStays(folder: Folder, name: string)
    requires folder.Keys == {name} && Matches(name)
    ensures |folder| == 1 && RotatedTo(folder, Seen(folder, {}), 2, {}, folder, Done)
  {
    AllSeen(folder);
    assert |folder.Keys| == 1;
    KeepAll(folder, folder.Keys, 2, {});
  }

  lemma StepWith(folder: Folder, run: Run, max: nat, after: Folder)
    requires Succeeds(run) && ResolveMaxBackups(run.maxBackups) == max
    requires (folder - {TmpName(run.stamp)})[FinalName(run.stamp) := Entry(run.modTime, run.data)] == after
    requires RotatedTo(after, Seen(after, {}), max, {}, after, Done)
    ensures BackedUpTo(folder, run, max, after)
  {
  }

  lemma OneFileStep(folder: Folder, stamp: string, modTime: int, data: string)
    requires folder.Keys <= {FinalName(stamp)}
    ensures BackedUpTo(folder, Plain(stamp, modTime, data), 2, Replaced(stamp, modTime, data))
    ensures |Replaced(stamp, modTime, data)| == 1
  {
    Naming(stamp, stamp);
    OnlyFile(folder, TmpName(stamp), FinalName(stamp), Entry(modTime, data));
    OneFileStays(Replaced(stamp, modTime, data), FinalName(stamp));
    StepWith(folder, Plain(stamp, modTime, data), 2, Replaced(stamp, modTime, data));
  }

  lemma TwoSteps(a: Run, b: Run, max: nat, f: Folder, g: Folder)
    requires a.modTime < b.modTime && BackedUpTo(map[], a, max, f) && BackedUpTo(f, b, max, g)
    ensures Series([a, b], max, [map[], f, g])
  {
    forall k: nat | k < 2
      ensures StepTaken([a, b], max, [map[], f, g], k)
    {
      if k == 0 {
        assert BackedUpTo([map[], f, g][0], [a, b][0], max, [map[], f, g][1]);
      } else {
        assert BackedUpTo([map[], f, g][1], [a, b][1], max, [map[], f, g][2]);
      }
    }
  }

  /** It can happen: of two backups made in one second, both of which would be kept, only the second is left. */
  lemma SameSecondLosesOne(stamp: string, first: string, second: string)
    ensures var runs := [Plain(stamp, 0, first), Plain(stamp, 1, second)];
            var folders := [map[], Replaced(stamp, 0, first), Replaced(stamp, 1, second)];
            Series(runs, 2, folders) && |folders[2]| == 1 && !HoldsJust(runs, 0, folders[2])
  {
    OneFileStep(map[], stamp, 0, first);
    OneFileStep(Replaced(stamp, 0, first), stamp, 1, second);
    TwoSteps(Plain(stamp, 0, first), Plain(stamp, 1, second), 2, Replaced(stamp, 0, first), Replaced(stamp, 1, second));
  }
}
