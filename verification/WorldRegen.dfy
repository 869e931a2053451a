/** worldregen/worldregen.go: regenerating a world step by step, any of which may fail or stop half-way. */
module WorldRegen {
  import opened Wrappers
  import opened Disk
  import SeedLine

  /** dest is the template's path joined to the world's. */
  datatype Template = Template(src: Path, dest: Path)

  datatype Config = Config(worldPath: Path, propsPath: Option<Path>, seedKey: string,
                           extras: seq<Path>, templates: seq<Template>)

  // ----- Backup names -----

  /** filepath.Ext: from the last dot on, or nothing. */
  function Ext(name: string): (e: string)
    ensures |e| <= |name|
  {
    if name == [] then []
    else var rest, last := name[..|name| - 1], name[|name| - 1];
      if last == '.' then ['.']
      else if Ext(rest) == [] then [] else Ext(rest) + [last]
  }

  function Stem(name: string): string {
    name[..|name| - |Ext(name)|]
  }

  lemma {:induction false} ExtShape(name: string)
    ensures Ext(name) == [] ==> '.' !in name
    ensures Ext(name) != [] ==> Ext(name)[0] == '.' && '.' !in Ext(name)[1..]
    ensures name == Stem(name) + Ext(name)
  {
    if name != [] {
      var rest, last := name[..|name| - 1], name[|name| - 1];
      ExtShape(rest);
      assert name == rest + [last];
      if last != '.' && Ext(rest) != [] {
        assert Stem(name) == Stem(rest);
        assert Stem(rest) + (Ext(rest) + [last]) == Stem(rest) + Ext(rest) + [last];
        assert (Ext(rest) + [last])[1..] == Ext(rest)[1..] + [last];
      }
    }
  }

  function WithLast(p: Path, name: string): Path {
    p[..|p| - 1] + [name]
  }

  function PrevWorld(p: Path, stamp: string): Path {
    WithLast(p, p[|p| - 1] + "_prev_" + stamp)
  }

  function BackupName(name: string, stamp: string): string {
    Stem(name) + ("_prev_" + stamp) + Ext(name)
  }

  function BackupOf(p: Path, stamp: string): Path {
    WithLast(p, BackupName(p[|p| - 1], stamp))
  }

  lemma {:induction false} NoExt(name: string)
    requires '.' !in name
    ensures Ext(name) == []
  {
    if name != [] {
      NoExt(name[..|name| - 1]);
    }
  }

  lemma ButLast(base: string, e: string)
    requires e != []
    ensures (base + e)[..|base + e| - 1] == base + e[..|e| - 1] && (base + e)[|base + e| - 1] == e[|e| - 1]
    ensures e == e[..|e| - 1] + [e[|e| - 1]]
  {
  }

  lemma {:induction false} ExtIs(base: string, e: string)
    requires e != [] && e[0] == '.' && '.' !in e[1..]
    ensures Ext(base + e) == e
  {
    ButLast(base, e);
    if |e| > 1 {
      assert e[|e| - 1] == e[1..][|e| - 2] && e[..|e| - 1][1..] == e[1..][..|e| - 2];
      ExtIs(base, e[..|e| - 1]);
    }
  }

  /** A stamp without dots keeps the extension, so two files never share a backup. */
  lemma BackupsDistinct(p: Path, q: Path, stamp: string)
    requires '.' !in stamp && p != q
    ensures BackupOf(p, stamp) != BackupOf(q, stamp)
  {
    var x, y := p[|p| - 1], q[|q| - 1];
    assert p == p[..|p| - 1] + [x] && q == q[..|q| - 1] + [y];
    if p[..|p| - 1] != q[..|q| - 1] {
      LastCutOff(p, BackupName(x, stamp));
      LastCutOff(q, BackupName(y, stamp));
    } else {
      NamesDistinct(x, y, stamp);
      assert BackupOf(p, stamp)[|p| - 1] == BackupName(x, stamp);
      assert BackupOf(q, stamp)[|p| - 1] == BackupName(y, stamp);
    }
  }

  lemma LastCutOff(p: Path, name: string)
    ensures WithLast(p, name)[..|WithLast(p, name)| - 1] == p[..|p| - 1]
  {
  }

  lemma NamesDistinct(x: string, y: string, stamp: string)
    requires '.' !in stamp && x != y
    ensures BackupName(x, stamp) != BackupName(y, stamp)
  {
    KeepsExt(x, stamp);
    KeepsExt(y, stamp);
    if Ext(x) == Ext(y) {
      ExtShape(x);
      ExtShape(y);
      MiddleCut(Stem(x), Stem(y), "_prev_" + stamp, Ext(x));
    }
  }

  lemma MiddleCut(a: string, b: string, middle: string, e: string)
    requires a != b
    ensures a + middle + e != b + middle + e
  {
    if |a| == |b| {
      assert (a + middle + e)[..|a|] == a && (b + middle + e)[..|b|] == b;
    } else {
      assert |a + middle + e| != |b + middle + e|;
    }
  }

  lemma KeepsExt(name: string, stamp: string)
    requires '.' !in stamp
    ensures Ext(BackupName(name, stamp)) == Ext(name)
  {
    ExtShape(name);
    var base := Stem(name) + ("_prev_" + stamp);
    if Ext(name) == [] {
      assert base + [] == base;
      assert Stem(name) == name;
      NoExt(base);
    } else {
      ExtIs(base, Ext(name));
    }
  }

  /** The names, spelled out: the stamp comes after the world's name, and before the extension of a file. */
  lemma {:induction false} NamesSpelled(dir: seq<string>, base: string, e: string, stamp: string)
    requires if e == [] then '.' !in base else e[0] == '.' && '.' !in e[1..]
    ensures PrevWorld(dir + [base + e], stamp) == dir + [base + e + "_prev_" + stamp]
    ensures BackupOf(dir + [base + e], stamp) == dir + [base + "_prev_" + stamp + e]
  {
    var p := dir + [base + e];
    assert p[|p| - 1] == base + e && p[..|p| - 1] == dir;
    if e == [] {
      assert base + e == base;
      NoExt(base);
    } else {
      ExtIs(base, e);
    }
    assert Stem(base + e) == base;
    assert base + e + ("_prev_" + stamp) == base + e + "_prev_" + stamp;
    assert base + ("_prev_" + stamp) + e == base + "_prev_" + stamp + e;
    assert (base + e) + "_prev_" + stamp == base + e + "_prev_" + stamp;
  }

  // ----- How a step reports -----

  /** Every call but the last succeeded, and the last one failed exactly when the step did. */
  predicate LogGrew(before: seq<Record>, after: seq<Record>, ok: bool) {
    && before <= after
    && (forall i :: |before| <= i < |after| - 1 ==> after[i].ok)
    && (ok ==> |after| > |before| ==> after[|after| - 1].ok)
    && (!ok ==> |after| > |before| && !after[|after| - 1].ok)
  }

  predicate SameAt(f: Files, g: Files, q: seq<string>) {
    (q in f <==> q in g) && (q in f ==> f[q] == g[q])
  }

  /** Nothing but p, and perhaps p', differs. */
  ghost predicate OnlyChanged(f: Files, g: Files, p: Path, p': Path) {
    forall q: Path :: q != p && q != p' ==> SameAt(f, g, q)
  }

  // ----- The steps -----

  predicate HasText(f: Files, p: Path) {
    p in f && f[p].File?
  }

  /** p holds its old text, or the beginning of the blanked one. */
  predicate OldOrPartBlanked(f: Files, g: Files, p: Path, seedKey: string) {
    HasText(f, p) ==> HasText(g, p) && (g[p] == f[p] || g[p].data <= SeedLine.Blanked(f[p].data, seedKey))
  }

  /** p holds its old text or the whole blanked one. */
  predicate OldOrBlanked(f: Files, g: Files, p: Path, seedKey: string) {
    HasText(f, p) ==> HasText(g, p) && (g[p] == f[p] || g[p].data == SeedLine.Blanked(f[p].data, seedKey))
  }

  /** The text of p is read, and its rewriting breaks off before the end. The calls are those from the n-th on. */
  predicate BlankingCut(f: Files, p: Path, seedKey: string, faults: nat -> Fault, n: nat) {
    && HasText(f, p) && faults(n).Fine?
    && faults(n + 1).CutShort? && faults(n + 1).n < |SeedLine.Blanked(f[p].data, seedKey)|
  }

  ghost predicate PropsIntact(f: Files, log: seq<Record>, from: nat, p: Path, seedKey: string) {
    forall i :: from <= i < |log| ==> OldOrBlanked(f, log[i].after, p, seedKey)
  }

  ghost predicate PropsPartly(f: Files, log: seq<Record>, from: nat, p: Path, seedKey: string) {
    forall i :: from <= i < |log| ==> OldOrPartBlanked(f, log[i].after, p, seedKey)
  }

  /** What the rewriting leaves, cut short or not. There is no backup of this file. */
  lemma RewriteLeaves(f: Files, p: Path, seedKey: string, fault: Fault)
    requires HasText(f, p)
    ensures var blanked := SeedLine.Blanked(f[p].data, seedKey);
            var g := Written(f, p, blanked, fault).after;
            && OldOrPartBlanked(f, g, p, seedKey)
            && (OldOrBlanked(f, g, p, seedKey) <==> !(fault.CutShort? && fault.n < |blanked|))
  {
    SeedLine.BlankingShortens(f[p].data, seedKey);
  }

  /** blankSeedLine with a file configured. */
  method RewriteProps(fs: FileSystem, p: Path, seedKey: string) returns (ok: bool)
    modifies fs
    ensures LogGrew(old(fs.log), fs.log, ok)
    ensures forall i :: |old(fs.log)| <= i < |fs.log| ==> OnlyChanged(old(fs.files), fs.log[i].after, p, p)
    ensures OnlyChanged(old(fs.files), fs.files, p, p)
    ensures OldOrPartBlanked(old(fs.files), fs.files, p, seedKey)
    ensures PropsPartly(old(fs.files), fs.log, |old(fs.log)|, p, seedKey)
    ensures PropsIntact(old(fs.files), fs.log, |old(fs.log)|, p, seedKey)
      <==> !BlankingCut(old(fs.files), p, seedKey, fs.faults, |old(fs.log)|)
    ensures ok ==>
      && HasText(old(fs.files), p)
      && fs.files == old(fs.files)[p := File(SeedLine.Blanked(old(fs.files)[p].data, seedKey))]
  {
    var data := fs.ReadFile(p);
    if data.None? {
      return false;
    }
    var blanked := SeedLine.BlankText(data.value, seedKey);
    ok := fs.WriteFile(p, blanked);
    RewriteStory(old(fs.files), fs.log, |old(fs.log)|, p, seedKey, fs.faults);
  }

  method BlankSeedLine(fs: FileSystem, propsPath: Option<Path>, seedKey: string) returns (ok: bool)
    modifies fs
    ensures LogGrew(old(fs.log), fs.log, ok)
    ensures propsPath.None? ==> ok && fs.log == old(fs.log) && fs.files == old(fs.files)
    ensures propsPath.Some? ==>
      forall i :: |old(fs.log)| <= i < |fs.log| ==>
        OnlyChanged(old(fs.files), fs.log[i].after, propsPath.value, propsPath.value)
    ensures propsPath.Some? ==> OnlyChanged(old(fs.files), fs.files, propsPath.value, propsPath.value)
    ensures propsPath.Some? ==>
      && OldOrPartBlanked(old(fs.files), fs.files, propsPath.value, seedKey)
      && PropsPartly(old(fs.files), fs.log, |old(fs.log)|, propsPath.value, seedKey)
      && (PropsIntact(old(fs.files), fs.log, |old(fs.log)|, propsPath.value, seedKey)
          <==> !BlankingCut(old(fs.files), propsPath.value, seedKey, fs.faults, |old(fs.log)|))
    ensures propsPath.Some? && ok ==>
      var p := propsPath.value;
      && HasText(old(fs.files), p)
      && fs.files == old(fs.files)[p := File(SeedLine.Blanked(old(fs.files)[p].data, seedKey))]
  {
    if propsPath.None? {
      return true;
    }
    ok := RewriteProps(fs, propsPath.value, seedKey);
  }

  lemma RewriteStory(f: Files, log: seq<Record>, from: nat, p: Path, seedKey: string, faults: nat -> Fault)
    requires HasText(f, p) && faults(from).Fine? && |log| == from + 2 && log[from].after == f
    requires log[from + 1] == Written(f, p, SeedLine.Blanked(f[p].data, seedKey), faults(from + 1))
    ensures OldOrPartBlanked(f, log[from + 1].after, p, seedKey) && PropsPartly(f, log, from, p, seedKey)
    ensures PropsIntact(f, log, from, p, seedKey) <==> !BlankingCut(f, p, seedKey, faults, from)
  {
    RewriteLeaves(f, p, seedKey, faults(from + 1));
    TwoCalls(f, log, from, p, seedKey);
  }

  lemma TwoCalls(f: Files, log: seq<Record>, from: nat, p: Path, seedKey: string)
    requires |log| == from + 2 && log[from].after == f
    requires OldOrPartBlanked(f, log[from + 1].after, p, seedKey)
    ensures PropsPartly(f, log, from, p, seedKey)
    ensures PropsIntact(f, log, from, p, seedKey) <==> OldOrBlanked(f, log[from + 1].after, p, seedKey)
  {
    assert OldOrPartBlanked(f, f, p, seedKey) && OldOrBlanked(f, f, p, seedKey);
    if OldOrBlanked(f, log[from + 1].after, p, seedKey) {
      forall i | from <= i < |log|
        ensures OldOrBlanked(f, log[i].after, p, seedKey)
      {
        assert i == from || i == from + 1;
      }
    }
  }

  /** It can happen: the rewriting breaks off at once, and with the text the message of the day is gone. */
  lemma CutRewriteLosesMotd(p: Path, value: string, seedKey: string, fallback: string, unescape: string -> string)
    requires '\n' !in value && !SeedLine.EndsInCR(value) && |value| < SeedLine.MAX_TOKEN - 5
    requires unescape(value) != []
    ensures var f := map[p := File("motd=" + value)];
            var g := Written(f, p, SeedLine.Blanked("motd=" + value, seedKey), CutShort(0)).after;
            && SeedLine.Motd(Some(f[p].data), fallback, unescape) == unescape(value)
            && g == map[p := File([])] && SeedLine.Motd(Some([]), fallback, unescape) == fallback
            && !OldOrBlanked(f, g, p, seedKey)
  {
    var text := "motd=" + value;
    SeedLine.LinesOfOne(text);
    SeedLine.LinesOfOne([]);
    assert "motd" + ['='] == "motd=" <= text && text[5..] == value;
    assert !SeedLine.EndsInCR(text);
    assert SeedLine.ScannedLine(text) == text && SeedLine.ScannedLine([]) == [];
    assert SeedLine.Lookup([text], "motd") == Some(value);
    assert SeedLine.Lookup([[]], "motd") == None;
    NotBlankedToNothing(text, seedKey);
  }

  lemma NotBlankedToNothing(text: string, seedKey: string)
    requires text != [] && SeedLine.OneLine(text)
    ensures SeedLine.Blanked(text, seedKey) != []
  {
    SeedLine.LinesOfOne(text);
    assert SeedLine.BlankLine(text, seedKey + ['=']) != [];
  }

  method RenameWorldIfExists(fs: FileSystem, worldPath: Path, stamp: string) returns (ok: bool)
    modifies fs
    ensures LogGrew(old(fs.log), fs.log, ok)
    ensures forall i :: |old(fs.log)| <= i < |fs.log| ==>
      fs.log[i].after == if fs.log[i].ok then fs.files else old(fs.files)
    ensures worldPath !in old(fs.files) ==> ok && fs.log == old(fs.log)
    ensures fs.files ==
      if ok then MovedIfThere(old(fs.files), worldPath, PrevWorld(worldPath, stamp)) else old(fs.files)
  {
    if !fs.Exists(worldPath) {
      return true;
    }
    ok := fs.Rename(worldPath, PrevWorld(worldPath, stamp));
  }

  /** At every moment the original bytes are at p or at its backup, and nothing else has changed. */
  ghost predicate ResetUnderWay(f: Files, g: Files, p: Path, backup: Path) {
    && OnlyChanged(f, g, p, backup)
    && (p in f ==> (p in g && g[p] == f[p]) || (backup in g && g[backup] == f[p]))
  }

  lemma BackupDiffers(p: Path, stamp: string)
    ensures BackupOf(p, stamp) != p && PrevWorld(p, stamp) != p
    ensures !(p <= PrevWorld(p, stamp)) && !(PrevWorld(p, stamp) <= p)
  {
    var name, n := p[|p| - 1], |p| - 1;
    assert |BackupName(name, stamp)| > |name|;
    assert BackupOf(p, stamp)[n] == BackupName(name, stamp);
    assert PrevWorld(p, stamp)[n] == name + "_prev_" + stamp && |name + "_prev_" + stamp| > |name|;
  }

  /** The disk after p was reset. */
  function Reset(f: Files, p: Path, stamp: string): Files
    requires p in f
  {
    f[BackupOf(p, stamp) := f[p]][p := File("{}")]
  }

  method ResetExtraFile(fs: FileSystem, p: Path, stamp: string) returns (ok: bool)
    modifies fs
    ensures LogGrew(old(fs.log), fs.log, ok)
    ensures p !in old(fs.files) ==> ok && fs.log == old(fs.log) && fs.files == old(fs.files)
    ensures forall i :: |old(fs.log)| <= i < |fs.log| ==>
      ResetUnderWay(old(fs.files), fs.log[i].after, p, BackupOf(p, stamp))
    ensures ResetUnderWay(old(fs.files), fs.files, p, BackupOf(p, stamp))
    ensures ok && p in old(fs.files) ==>
      && old(fs.files)[p].File?
      && fs.files == Reset(old(fs.files), p, stamp)
  {
    if !fs.Exists(p) {
      return true;
    }
    var backupPath := BackupOf(p, stamp);
    BackupDiffers(p, stamp);
    var data := fs.ReadFile(p);
    if data.None? {
      return false;
    }
    ok := fs.WriteFile(backupPath, data.value);
    if !ok {
      return false;
    }
    ok := fs.WriteFile(p, "{}");
  }

  /** Nothing that was there changed, except dest; nothing is new except dest and directories above it. */
  ghost predicate OnlyAddedAbove(f: Files, g: Files, dest: Path) {
    && (forall q :: q in f && q != dest ==> q in g && g[q] == f[q])
    && (forall q :: q in g ==> q in f || q <= dest)
  }

  /** tf's file, if it is there, has arrived. */
  ghost predicate TemplateTaken(tf: Template, f: Files, g: Files) {
    tf.src in f && tf.src != tf.dest ==> f[tf.src].File? && tf.dest in g && g[tf.dest] == f[tf.src]
  }

  method CopySeedTemplate(fs: FileSystem, tf: Template) returns (ok: bool)
    modifies fs
    ensures LogGrew(old(fs.log), fs.log, ok)
    ensures forall i :: |old(fs.log)| <= i < |fs.log| ==> OnlyAddedAbove(old(fs.files), fs.log[i].after, tf.dest)
    ensures tf.src !in old(fs.files) ==> ok && fs.log == old(fs.log)
    ensures OnlyAddedAbove(old(fs.files), fs.files, tf.dest)
    ensures ok ==> TemplateTaken(tf, old(fs.files), fs.files)
  {
    if !fs.Exists(tf.src) {
      return true;
    }
    var parent := tf.dest[..|tf.dest| - 1];
    ghost var f := fs.files;
    DirsOnlyAdd(f, tf.dest, fs.faults(|fs.log|));
    ok := fs.MkdirAll(parent);
    if !ok {
      return false;
    }
    ok := CopyInto(fs, f, tf);
  }

  /** os.Open, os.Create and io.Copy, once the directory is there; f is the disk before it was. */
  method CopyInto(fs: FileSystem, ghost f: Files, tf: Template) returns (ok: bool)
    requires OnlyAddedAbove(f, fs.files, tf.dest)
    modifies fs
    ensures LogGrew(old(fs.log), fs.log, ok)
    ensures forall i :: |old(fs.log)| <= i < |fs.log| ==> OnlyAddedAbove(f, fs.log[i].after, tf.dest)
    ensures OnlyAddedAbove(f, fs.files, tf.dest)
    ensures ok ==> TemplateTaken(tf, old(fs.files), fs.files)
  {
    var source := fs.ReadFile(tf.src);
    if source.None? {
      return false;
    }
    WriteOnlyAdds(f, fs.files, tf.dest, "", fs.faults(|fs.log|));
    ok := fs.WriteFile(tf.dest, "");
    if !ok {
      return false;
    }
    var copied := fs.ReadFile(tf.src);
    if copied.None? {
      return false;
    }
    WriteOnlyAdds(f, fs.files, tf.dest, copied.value, fs.faults(|fs.log|));
    ok := fs.WriteFile(tf.dest, copied.value);
  }

  lemma DirsOnlyAdd(f: Files, dest: Path, fault: Fault)
    ensures OnlyAddedAbove(f, DirsMade(f, dest[..|dest| - 1], fault).after, dest)
  {
    var parent := dest[..|dest| - 1];
    forall n: nat | n <= |parent|
      ensures OnlyAddedAbove(f, WithDirs(f, parent, n), dest)
    {
      WithDirsOnlyAdds(f, parent, n);
    }
  }

  lemma WriteOnlyAdds(f: Files, g: Files, dest: Path, data: string, fault: Fault)
    requires OnlyAddedAbove(f, g, dest)
    ensures OnlyAddedAbove(f, Written(g, dest, data, fault).after, dest)
  {
  }

  // ----- The whole procedure -----

  datatype Outcome = Regenerated | StillRunning | Failed

  /** The configured paths do not run into each other, and the world's new name is free. */
  ghost predicate Apart(cfg: Config, newSeed: bool, stamp: string, f: Files) {
    var world, prev := cfg.worldPath, PrevWorld(cfg.worldPath, stamp);
    && '.' !in stamp
    && Free(f, prev) && (world in f || Free(f, world))
    && (forall i :: 0 <= i < |cfg.extras| ==>
          var r, b := cfg.extras[i], BackupOf(cfg.extras[i], stamp);
          !(world <= r) && !(prev <= r) && !(world <= b) && !(prev <= b))
    && (forall i, j :: 0 <= i < |cfg.extras| && 0 <= j < |cfg.extras| ==>
          && (i != j ==> cfg.extras[i] != cfg.extras[j])
          && BackupOf(cfg.extras[i], stamp) != cfg.extras[j])
    && (newSeed && cfg.propsPath.Some? ==>
          var p := cfg.propsPath.value;
          && !(world <= p) && !(prev <= p)
          && forall i :: 0 <= i < |cfg.extras| ==> cfg.extras[i] != p && BackupOf(cfg.extras[i], stamp) != p)
    && (forall k :: 0 <= k < |cfg.templates| ==> world <= cfg.templates[k].dest)
  }

  ghost predicate WorldWhole(cfg: Config, stamp: string, before: Files, g: Files) {
    || Tree(g, cfg.worldPath) == Tree(before, cfg.worldPath)
    || Tree(g, PrevWorld(cfg.worldPath, stamp)) == Tree(before, cfg.worldPath)
  }

  ghost predicate ResetSafe(p: Path, stamp: string, before: Files, g: Files) {
    p in before ==> (p in g && g[p] == before[p]) || (BackupOf(p, stamp) in g && g[BackupOf(p, stamp)] == before[p])
  }

  /** The old world is whole at its own or its new name, and each file to reset survives at its own or its
      backup path. The properties file is not among what is kept. */
  ghost predicate NothingLost(cfg: Config, stamp: string, before: Files, g: Files) {
    && WorldWhole(cfg, stamp, before, g)
    && forall i :: 0 <= i < |cfg.extras| ==> ResetSafe(cfg.extras[i], stamp, before, g)
  }

  // ----- How each step keeps it -----

  lemma TreeSame(f: Files, g: Files, p: Path)
    requires forall rel :: SameAt(f, g, p + rel)
    ensures Tree(f, p) == Tree(g, p) && Inside(f, p) == Inside(g, p)
  {
    assert forall rel :: rel in Inside(f, p) <==> rel in Inside(g, p);
  }

  lemma TreeOutsideChange(f: Files, g: Files, p: Path, a: Path, b: Path)
    requires OnlyChanged(f, g, a, b) && !(p <= a) && !(p <= b)
    ensures Tree(f, p) == Tree(g, p) && Inside(f, p) == Inside(g, p)
  {
    forall rel: seq<string>
      ensures SameAt(f, g, p + rel)
    {
      var q: Path := p + rel;
      assert p <= q;
    }
    TreeSame(f, g, p);
  }

  /** Until the world is moved, only the properties file may differ. */
  ghost predicate BeforeMove(cfg: Config, newSeed: bool, before: Files, g: Files) {
    if newSeed && cfg.propsPath.Some? then OnlyChanged(before, g, cfg.propsPath.value, cfg.propsPath.value)
    else before == g
  }

  lemma BeforeMoveTrees(cfg: Config, newSeed: bool, stamp: string, before: Files, g: Files)
    requires Apart(cfg, newSeed, stamp, before) && BeforeMove(cfg, newSeed, before, g)
    ensures Tree(g, cfg.worldPath) == Tree(before, cfg.worldPath)
    ensures Inside(g, cfg.worldPath) == Inside(before, cfg.worldPath)
    ensures Free(g, PrevWorld(cfg.worldPath, stamp))
  {
    if newSeed && cfg.propsPath.Some? {
      var p := cfg.propsPath.value;
      TreeOutsideChange(before, g, cfg.worldPath, p, p);
      TreeOutsideChange(before, g, PrevWorld(cfg.worldPath, stamp), p, p);
    }
  }

  lemma BeforeMoveLosesNothing(cfg: Config, newSeed: bool, stamp: string, before: Files, g: Files)
    requires Apart(cfg, newSeed, stamp, before) && BeforeMove(cfg, newSeed, before, g)
    ensures NothingLost(cfg, stamp, before, g)
    ensures forall i :: 0 <= i < |cfg.extras| ==> SameAt(before, g, cfg.extras[i])
  {
    BeforeMoveTrees(cfg, newSeed, stamp, before, g);
    forall i | 0 <= i < |cfg.extras|
      ensures SameAt(before, g, cfg.extras[i])
    {
      if newSeed && cfg.propsPath.Some? {
        assert cfg.extras[i] != cfg.propsPath.value;
      }
    }
  }

  /** The world has been moved and the first n files reset; the other files are as they were. */
  ghost predicate AfterMove(cfg: Config, stamp: string, before: Files, g: Files, n: nat) {
    && Tree(g, PrevWorld(cfg.worldPath, stamp)) == Tree(before, cfg.worldPath)
    && (forall i :: 0 <= i < n && i < |cfg.extras| && cfg.extras[i] in before ==>
          var r, b := cfg.extras[i], BackupOf(cfg.extras[i], stamp);
          r in g && g[r] == File("{}") && b in g && g[b] == before[r])
    && (forall i :: n <= i < |cfg.extras| ==> SameAt(before, g, cfg.extras[i]))
  }

  lemma AfterMoveLosesNothing(cfg: Config, stamp: string, before: Files, g: Files, n: nat)
    requires AfterMove(cfg, stamp, before, g, n)
    ensures NothingLost(cfg, stamp, before, g)
  {
  }

  /** The disk after renameWorldIfExists. */
  function MovedIfThere(f: Files, world: Path, prev: Path): Files {
    if world in f then Moved(f, world, prev) else f
  }

  lemma MoveLosesNothing(cfg: Config, newSeed: bool, stamp: string, before: Files, f: Files)
    requires Apart(cfg, newSeed, stamp, before) && BeforeMove(cfg, newSeed, before, f)
    ensures AfterMove(cfg, stamp, before, MovedIfThere(f, cfg.worldPath, PrevWorld(cfg.worldPath, stamp)), 0)
  {
    WorldMoved(cfg, newSeed, stamp, before, f);
    ExtrasStay(cfg, newSeed, stamp, before, f);
  }

  lemma WorldMoved(cfg: Config, newSeed: bool, stamp: string, before: Files, f: Files)
    requires Apart(cfg, newSeed, stamp, before) && BeforeMove(cfg, newSeed, before, f)
    ensures var world, prev := cfg.worldPath, PrevWorld(cfg.worldPath, stamp);
            Tree(MovedIfThere(f, world, prev), prev) == Tree(before, world)
  {
    var world, prev := cfg.worldPath, PrevWorld(cfg.worldPath, stamp);
    BackupDiffers(world, stamp);
    BeforeMoveTrees(cfg, newSeed, stamp, before, f);
    if world in f {
      TreeMoved(f, world, prev);
    } else {
      NoWorld(before, f, world);
      assert Tree(f, prev) == map[];
    }
  }

  lemma ExtrasStay(cfg: Config, newSeed: bool, stamp: string, before: Files, f: Files)
    requires Apart(cfg, newSeed, stamp, before) && BeforeMove(cfg, newSeed, before, f)
    ensures var g := MovedIfThere(f, cfg.worldPath, PrevWorld(cfg.worldPath, stamp));
            forall i :: 0 <= i < |cfg.extras| ==> SameAt(before, g, cfg.extras[i])
  {
    BackupDiffers(cfg.worldPath, stamp);
    BeforeMoveTrees(cfg, newSeed, stamp, before, f);
    BeforeMoveLosesNothing(cfg, newSeed, stamp, before, f);
    forall i | 0 <= i < |cfg.extras|
      ensures SameAt(f, MovedIfThere(f, cfg.worldPath, PrevWorld(cfg.worldPath, stamp)), cfg.extras[i])
    {
      StaysPut(f, cfg.worldPath, PrevWorld(cfg.worldPath, stamp), cfg.extras[i]);
    }
  }

  lemma TreeMoved(f: Files, world: Path, prev: Path)
    requires Free(f, prev) && !(world <= prev) && !(prev <= world)
    ensures Tree(Moved(f, world, prev), prev) == Tree(f, world)
  {
    MoveKeepsTree(f, world, prev);
  }

  lemma StaysPut(f: Files, world: Path, prev: Path, p: Path)
    requires Free(f, prev) && !(world <= prev) && !(prev <= world) && !(world <= p) && !(prev <= p)
    ensures SameAt(f, Moved(f, world, prev), p)
  {
    MoveKeepsTree(f, world, prev);
  }

  lemma NoWorld(before: Files, f: Files, world: Path)
    requires Inside(f, world) == Inside(before, world) && world !in f && (world in before || Free(before, world))
    ensures Tree(before, world) == map[]
  {
    assert world + [] == world;
    assert [] !in Inside(f, world);
  }

  lemma ResetLosesNothing(cfg: Config, newSeed: bool, stamp: string, before: Files, f: Files, g: Files, n: nat)
    requires Apart(cfg, newSeed, stamp, before) && n < |cfg.extras| && AfterMove(cfg, stamp, before, f, n)
    requires ResetUnderWay(f, g, cfg.extras[n], BackupOf(cfg.extras[n], stamp))
    ensures NothingLost(cfg, stamp, before, g)
  {
    TreeOutsideChange(f, g, PrevWorld(cfg.worldPath, stamp), cfg.extras[n], BackupOf(cfg.extras[n], stamp));
    forall i | 0 <= i < |cfg.extras|
      ensures ResetSafe(cfg.extras[i], stamp, before, g)
    {
      if i != n {
        BackupsDistinct(cfg.extras[i], cfg.extras[n], stamp);
        assert SameAt(f, g, cfg.extras[i]) && SameAt(f, g, BackupOf(cfg.extras[i], stamp));
      }
    }
  }

  // ----- A file listed more than once -----

  /** The disk after the first n turns of the loop over these files, no call failing. */
  function ResetEach(f: Files, ps: seq<Path>, n: nat, stamp: string): Files
    requires n <= |ps|
  {
    if n == 0 then f else ResetIfThere(ResetEach(f, ps, n - 1, stamp), ps[n - 1], stamp)
  }

  function ResetIfThere(f: Files, p: Path, stamp: string): Files {
    if p in f then Reset(f, p, stamp) else f
  }

  lemma ResetsStepByStep(f: Files, ps: seq<Path>, n: nat, stamp: string)
    requires n <= |ps|
    ensures ResetEach(f, ps, 0, stamp) == f
    ensures n < |ps| ==> ResetEach(f, ps, n + 1, stamp) == ResetIfThere(ResetEach(f, ps, n, stamp), ps[n], stamp)
  {
  }

  /** How often p is among the first n. */
  function Times(ps: seq<Path>, n: nat, p: Path): nat
    requires n <= |ps|
  {
    if n == 0 then 0 else Times(ps, n - 1, p) + if ps[n - 1] == p then 1 else 0
  }

  /** No file of the list is p's backup, nor is p one of theirs. */
  predicate Unrelated(ps: seq<Path>, p: Path, stamp: string) {
    forall i :: 0 <= i < |ps| ==> BackupOf(p, stamp) != ps[i] && BackupOf(ps[i], stamp) != p
  }

  /** What p and its backup hold after p was reset n times. */
  predicate ResetTimes(f: Files, g: Files, p: Path, stamp: string, n: nat)
    requires p in f
  {
    var b := BackupOf(p, stamp);
    && p in g && g[p] == (if n == 0 then f[p] else File("{}"))
    && (n > 0 ==> b in g && g[b] == if n == 1 then f[p] else File("{}"))
  }

  lemma OneMoreReset(f: Files, g: Files, p: Path, q: Path, stamp: string, n: nat)
    requires '.' !in stamp && p in f && ResetTimes(f, g, p, stamp, n)
    requires BackupOf(p, stamp) != q && BackupOf(q, stamp) != p
    ensures ResetTimes(f, ResetIfThere(g, q, stamp), p, stamp, if q == p then n + 1 else n)
  {
    if q != p {
      BackupsDistinct(p, q, stamp);
    }
  }

  lemma {:induction false} ResetsCounted(f: Files, ps: seq<Path>, n: nat, p: Path, stamp: string)
    requires n <= |ps| && '.' !in stamp && p in f && Unrelated(ps, p, stamp)
    ensures ResetTimes(f, ResetEach(f, ps, n, stamp), p, stamp, Times(ps, n, p))
  {
    if n > 0 {
      ResetsCounted(f, ps, n - 1, p, stamp);
      OneMoreReset(f, ResetEach(f, ps, n - 1, stamp), p, ps[n - 1], stamp, Times(ps, n - 1, p));
    }
  }

  /** After the whole loop a listed file's bytes survive exactly when it was listed once, or they were "{}" already. */
  lemma {:induction false} KeptWhenListedOnce(f: Files, ps: seq<Path>, p: Path, stamp: string)
    requires '.' !in stamp && p in f && p in ps && Unrelated(ps, p, stamp)
    ensures ResetSafe(p, stamp, f, ResetEach(f, ps, |ps|, stamp)) <==> Times(ps, |ps|, p) == 1 || f[p] == File("{}")
  {
    ResetsCounted(f, ps, |ps|, p, stamp);
    var i :| 0 <= i < |ps| && ps[i] == p;
    ListedAtLeastOnce(ps, |ps|, p, i);
    BackupDiffers(p, stamp);
  }

  lemma {:induction false} ListedAtLeastOnce(ps: seq<Path>, n: nat, p: Path, i: nat)
    requires i < n <= |ps| && ps[i] == p
    ensures Times(ps, n, p) > 0
  {
    if i < n - 1 {
      ListedAtLeastOnce(ps, n - 1, p, i);
    }
  }

  lemma ResetDone(cfg: Config, newSeed: bool, stamp: string, before: Files, f: Files, g: Files, n: nat)
    requires Apart(cfg, newSeed, stamp, before) && n < |cfg.extras| && AfterMove(cfg, stamp, before, f, n)
    requires cfg.extras[n] !in f ==> g == f
    requires cfg.extras[n] in f ==> g == Reset(f, cfg.extras[n], stamp)
    ensures AfterMove(cfg, stamp, before, g, n + 1)
  {
    var r, b := cfg.extras[n], BackupOf(cfg.extras[n], stamp);
    if r in f {
      assert OnlyChanged(f, g, r, b);
      TreeOutsideChange(f, g, PrevWorld(cfg.worldPath, stamp), r, b);
    }
    assert SameAt(before, f, r);
    forall i | 0 <= i < |cfg.extras| && i != n
      ensures SameAt(f, g, cfg.extras[i]) && SameAt(f, g, BackupOf(cfg.extras[i], stamp))
    {
      BackupsDistinct(cfg.extras[i], r, stamp);
    }
  }

  lemma OutOfTheWay(world: Path, prev: Path, q: seq<string>, dest: Path)
    requires |world| == |prev| && world != prev && world <= dest && prev <= q
    ensures !(q <= dest)
  {
    assert q <= dest ==> dest[..|prev|] == q[..|prev|];
  }

  lemma TemplateLosesNothing(cfg: Config, newSeed: bool, stamp: string, before: Files, f: Files, g: Files, dest: Path)
    requires Apart(cfg, newSeed, stamp, before) && AfterMove(cfg, stamp, before, f, |cfg.extras|)
    requires cfg.worldPath <= dest && OnlyAddedAbove(f, g, dest)
    ensures AfterMove(cfg, stamp, before, g, |cfg.extras|)
  {
    var world, prev := cfg.worldPath, PrevWorld(cfg.worldPath, stamp);
    BackupDiffers(world, stamp);
    forall rel: seq<string>
      ensures SameAt(f, g, prev + rel)
    {
      OutOfTheWay(world, prev, prev + rel, dest);
    }
    TreeSame(f, g, prev);
  }

  // ----- The new world -----

  /** The templates lie apart from everything the procedure touches, and no two go to one place. */
  ghost predicate TemplatesApart(cfg: Config, newSeed: bool, stamp: string) {
    && (forall k :: 0 <= k < |cfg.templates| ==> SourceApart(cfg, newSeed, stamp, cfg.templates[k].src))
    && (forall j, k :: 0 <= j < k < |cfg.templates| ==> cfg.templates[j].dest != cfg.templates[k].dest)
  }

  ghost predicate SourceApart(cfg: Config, newSeed: bool, stamp: string, src: Path) {
    && !(cfg.worldPath <= src) && !(PrevWorld(cfg.worldPath, stamp) <= src)
    && (newSeed && cfg.propsPath.Some? ==> src != cfg.propsPath.value)
    && (forall i :: 0 <= i < |cfg.extras| ==> src != cfg.extras[i] && src != BackupOf(cfg.extras[i], stamp))
  }

  /** Of the old world nothing is left in place: only the first n templates' files, and directories above them. */
  ghost predicate OnlyTemplatesInWorld(cfg: Config, g: Files, n: nat) {
    forall q :: q in g && cfg.worldPath <= q ==>
      exists k :: 0 <= k < n && k < |cfg.templates| && q <= cfg.templates[k].dest
  }

  ghost predicate SourcesKept(cfg: Config, before: Files, g: Files) {
    forall k :: 0 <= k < |cfg.templates| && cfg.templates[k].src in before ==>
      cfg.templates[k].src in g && g[cfg.templates[k].src] == before[cfg.templates[k].src]
  }

  ghost predicate TemplateCopied(tf: Template, before: Files, g: Files) {
    tf.src in before ==> before[tf.src].File? && tf.dest in g && g[tf.dest] == before[tf.src]
  }

  /** The new world so far, with the first n templates in it. */
  ghost predicate NewWorld(cfg: Config, before: Files, g: Files, n: nat) {
    && OnlyTemplatesInWorld(cfg, g, n) && SourcesKept(cfg, before, g)
    && forall k :: 0 <= k < n && k < |cfg.templates| ==> TemplateCopied(cfg.templates[k], before, g)
  }

  lemma MoveClearsWorld(cfg: Config, newSeed: bool, stamp: string, before: Files, f: Files)
    requires Apart(cfg, newSeed, stamp, before) && BeforeMove(cfg, newSeed, before, f)
    requires TemplatesApart(cfg, newSeed, stamp)
    ensures NewWorld(cfg, before, MovedIfThere(f, cfg.worldPath, PrevWorld(cfg.worldPath, stamp)), 0)
  {
    var world, prev := cfg.worldPath, PrevWorld(cfg.worldPath, stamp);
    var g := MovedIfThere(f, world, prev);
    BackupDiffers(world, stamp);
    BeforeMoveTrees(cfg, newSeed, stamp, before, f);
    NothingAtWorld(before, f, world, prev);
    forall k | 0 <= k < |cfg.templates| && cfg.templates[k].src in before
      ensures SameAt(before, g, cfg.templates[k].src)
    {
      var src := cfg.templates[k].src;
      assert SourceApart(cfg, newSeed, stamp, src);
      assert SameAt(before, f, src);
      StaysPut(f, world, prev, src);
    }
  }

  lemma NothingAtWorld(before: Files, f: Files, world: Path, prev: Path)
    requires Inside(f, world) == Inside(before, world) && (world in before || Free(before, world))
    requires Free(f, prev) && !(world <= prev) && !(prev <= world)
    ensures forall q :: q in MovedIfThere(f, world, prev) ==> !(world <= q)
  {
    var g := MovedIfThere(f, world, prev);
    if world in f {
      MoveKeepsTree(f, world, prev);
    } else {
      assert world + [] == world && [] !in Inside(f, world);
    }
    assert Inside(g, world) == {};
    forall q | q in g
      ensures !(world <= q)
    {
      UnderIsInside(g, world, q);
    }
  }

  lemma ResetKeepsNewWorld(cfg: Config, newSeed: bool, stamp: string, before: Files, f: Files, g: Files, n: nat)
    requires Apart(cfg, newSeed, stamp, before) && TemplatesApart(cfg, newSeed, stamp) && n < |cfg.extras|
    requires OnlyChanged(f, g, cfg.extras[n], BackupOf(cfg.extras[n], stamp)) && NewWorld(cfg, before, f, 0)
    ensures NewWorld(cfg, before, g, 0)
  {
    var r, b := cfg.extras[n], BackupOf(cfg.extras[n], stamp);
    forall q: Path | q in g
      ensures !(cfg.worldPath <= q)
    {
      assert q != r && q != b ==> SameAt(f, g, q);
    }
    forall k | 0 <= k < |cfg.templates| && cfg.templates[k].src in before
      ensures SameAt(f, g, cfg.templates[k].src)
    {
      assert SourceApart(cfg, newSeed, stamp, cfg.templates[k].src);
    }
  }

  lemma CopyKeepsSources(cfg: Config, newSeed: bool, stamp: string, before: Files, f: Files, g: Files, dest: Path)
    requires TemplatesApart(cfg, newSeed, stamp) && cfg.worldPath <= dest && OnlyAddedAbove(f, g, dest)
    requires SourcesKept(cfg, before, f)
    ensures SourcesKept(cfg, before, g)
  {
    forall k | 0 <= k < |cfg.templates| && cfg.templates[k].src in before
      ensures cfg.templates[k].src in g && g[cfg.templates[k].src] == before[cfg.templates[k].src]
    {
      assert SourceApart(cfg, newSeed, stamp, cfg.templates[k].src);
    }
  }

  lemma CopyAddsOnlyDest(cfg: Config, f: Files, g: Files, n: nat)
    requires n < |cfg.templates| && OnlyTemplatesInWorld(cfg, f, n) && OnlyAddedAbove(f, g, cfg.templates[n].dest)
    ensures OnlyTemplatesInWorld(cfg, g, n + 1)
  {
    forall q: Path | q in g && cfg.worldPath <= q
      ensures exists k :: 0 <= k < n + 1 && k < |cfg.templates| && q <= cfg.templates[k].dest
    {
      if q in f {
        var k :| 0 <= k < n && k < |cfg.templates| && q <= cfg.templates[k].dest;
      } else {
        assert q <= cfg.templates[n].dest;
      }
    }
  }

  lemma CopyExtendsNewWorld(cfg: Config, newSeed: bool, stamp: string, before: Files, f: Files, g: Files, n: nat)
    requires Apart(cfg, newSeed, stamp, before) && TemplatesApart(cfg, newSeed, stamp) && n < |cfg.templates|
    requires NewWorld(cfg, before, f, n) && OnlyAddedAbove(f, g, cfg.templates[n].dest)
    requires TemplateTaken(cfg.templates[n], f, g)
    ensures NewWorld(cfg, before, g, n + 1)
  {
    CopyKeepsSources(cfg, newSeed, stamp, before, f, g, cfg.templates[n].dest);
    CopyAddsOnlyDest(cfg, f, g, n);
    assert SourceApart(cfg, newSeed, stamp, cfg.templates[n].src);
    forall k | 0 <= k < n + 1
      ensures TemplateCopied(cfg.templates[k], before, g)
    {
      if k < n {
        assert TemplateCopied(cfg.templates[k], before, f) && cfg.templates[k].dest != cfg.templates[n].dest;
      }
    }
  }

  // ----- What the procedure leaves alone -----

  /** A path the procedure has no business with. */
  ghost predicate Bystander(cfg: Config, newSeed: bool, stamp: string, q: Path) {
    && !(cfg.worldPath <= q) && !(PrevWorld(cfg.worldPath, stamp) <= q)
    && (newSeed && cfg.propsPath.Some? ==> q != cfg.propsPath.value)
    && (forall i :: 0 <= i < |cfg.extras| ==> q != cfg.extras[i] && q != BackupOf(cfg.extras[i], stamp))
    && (forall k :: 0 <= k < |cfg.templates| ==> q != cfg.templates[k].dest)
  }

  /** Nothing there has changed, and nothing has come there but a directory above a template's place. */
  ghost predicate KeptAt(cfg: Config, newSeed: bool, stamp: string, f: Files, g: Files, q: Path) {
    Bystander(cfg, newSeed, stamp, q) ==>
      && (q in f ==> q in g && g[q] == f[q])
      && (q in g ==> q in f || exists k :: 0 <= k < |cfg.templates| && q <= cfg.templates[k].dest)
  }

  ghost predicate OthersKept(cfg: Config, newSeed: bool, stamp: string, f: Files, g: Files) {
    forall q: Path :: KeptAt(cfg, newSeed, stamp, f, g, q)
  }

  ghost predicate QuietCall(cfg: Config, newSeed: bool, stamp: string, f: Files, log: seq<Record>, i: nat) {
    i < |log| && OthersKept(cfg, newSeed, stamp, f, log[i].after)
  }

  /** At the end and at every call since `from`. */
  ghost predicate Quiet(cfg: Config, newSeed: bool, stamp: string, f: Files, g: Files, log: seq<Record>, from: nat) {
    && OthersKept(cfg, newSeed, stamp, f, g)
    && forall i: nat :: from <= i < |log| ==> QuietCall(cfg, newSeed, stamp, f, log, i)
  }

  lemma {:induction false} KeptTwice(cfg: Config, newSeed: bool, stamp: string, f: Files, g: Files, h: Files)
    requires OthersKept(cfg, newSeed, stamp, f, g) && OthersKept(cfg, newSeed, stamp, g, h)
    ensures OthersKept(cfg, newSeed, stamp, f, h)
  {
    forall q: Path
      ensures KeptAt(cfg, newSeed, stamp, f, h, q)
    {
      assert KeptAt(cfg, newSeed, stamp, f, g, q) && KeptAt(cfg, newSeed, stamp, g, h, q);
    }
  }

  lemma {:induction false} QuietOn(cfg: Config, newSeed: bool, stamp: string, f: Files, g: Files, log: seq<Record>,
                                   h: Files, longer: seq<Record>, ok: bool, from: nat)
    requires from <= |log| && LogGrew(log, longer, ok)
    requires Quiet(cfg, newSeed, stamp, f, g, log, from) && Quiet(cfg, newSeed, stamp, g, h, longer, |log|)
    ensures Quiet(cfg, newSeed, stamp, f, h, longer, from)
  {
    KeptTwice(cfg, newSeed, stamp, f, g, h);
    forall i: nat | from <= i < |longer|
      ensures QuietCall(cfg, newSeed, stamp, f, longer, i)
    {
      if i < |log| {
        assert QuietCall(cfg, newSeed, stamp, f, log, i) && longer[i] == log[i];
      } else {
        assert QuietCall(cfg, newSeed, stamp, g, longer, i);
        KeptTwice(cfg, newSeed, stamp, f, g, longer[i].after);
      }
    }
  }

  lemma {:induction false} NothingDoneIsQuiet(cfg: Config, newSeed: bool, stamp: string, f: Files, log: seq<Record>)
    ensures Quiet(cfg, newSeed, stamp, f, f, log, |log|)
  {
  }

  lemma {:induction false} ChangeIsQuiet(cfg: Config, newSeed: bool, stamp: string, f: Files, g: Files,
                                         a: Path, b: Path)
    requires OnlyChanged(f, g, a, b)
    requires !Bystander(cfg, newSeed, stamp, a) && !Bystander(cfg, newSeed, stamp, b)
    ensures OthersKept(cfg, newSeed, stamp, f, g)
  {
    forall q: Path
      ensures KeptAt(cfg, newSeed, stamp, f, g, q)
    {
      assert q != a && q != b ==> SameAt(f, g, q);
    }
  }

  lemma {:induction false} MoveIsQuiet(cfg: Config, newSeed: bool, stamp: string, f: Files)
    ensures OthersKept(cfg, newSeed, stamp, f, MovedIfThere(f, cfg.worldPath, PrevWorld(cfg.worldPath, stamp)))
  {
    var world, prev := cfg.worldPath, PrevWorld(cfg.worldPath, stamp);
    forall q: Path
      ensures KeptAt(cfg, newSeed, stamp, f, MovedIfThere(f, world, prev), q)
    {
      if !(prev <= q) {
        NotMoved(f, world, prev, q);
      }
    }
  }

  lemma {:induction false} AdditionIsQuiet(cfg: Config, newSeed: bool, stamp: string, f: Files, g: Files, k: nat)
    requires k < |cfg.templates| && OnlyAddedAbove(f, g, cfg.templates[k].dest)
    ensures OthersKept(cfg, newSeed, stamp, f, g)
  {
  }

  // ----- The procedure itself -----

  /** The properties file holds its old text with the seed blanked, if that was asked for. */
  ghost predicate SeedBlanked(cfg: Config, newSeed: bool, before: Files, g: Files) {
    newSeed && cfg.propsPath.Some? ==>
      var p := cfg.propsPath.value;
      p in before && before[p].File? && p in g && g[p] == File(SeedLine.Blanked(before[p].data, cfg.seedKey))
  }

  /** Every disk state since `from` keeps what must be kept. */
  ghost predicate NeverLost(cfg: Config, stamp: string, before: Files, log: seq<Record>, from: nat) {
    forall i :: from <= i < |log| ==> NothingLost(cfg, stamp, before, log[i].after)
  }

  /** Nothing lost, and the properties file whole. */
  ghost predicate Sound(cfg: Config, newSeed: bool, stamp: string, before: Files, g: Files) {
    NothingLost(cfg, stamp, before, g) && SeedBlanked(cfg, newSeed, before, g)
  }

  ghost predicate SoundCall(cfg: Config, newSeed: bool, stamp: string, before: Files, log: seq<Record>, i: nat) {
    i < |log| && Sound(cfg, newSeed, stamp, before, log[i].after)
  }

  ghost predicate AllSound(cfg: Config, newSeed: bool, stamp: string, before: Files, log: seq<Record>, from: nat) {
    forall i: nat :: from <= i < |log| ==> SoundCall(cfg, newSeed, stamp, before, log, i)
  }

  /** The properties file over the calls since `from`: always its old text or the beginning of the blanked one,
      and whole exactly when its rewriting was not cut. */
  ghost predicate PropsStory(cfg: Config, newSeed: bool, before: Files, faults: nat -> Fault,
                             log: seq<Record>, from: nat) {
    newSeed && cfg.propsPath.Some? ==>
      && PropsPartly(before, log, from, cfg.propsPath.value, cfg.seedKey)
      && (PropsIntact(before, log, from, cfg.propsPath.value, cfg.seedKey)
          <==> !BlankingCut(before, cfg.propsPath.value, cfg.seedKey, faults, from))
  }

  lemma StoryGoesOn(cfg: Config, newSeed: bool, before: Files, faults: nat -> Fault,
                    log: seq<Record>, longer: seq<Record>, from: nat)
    requires PropsStory(cfg, newSeed, before, faults, log, from) && from <= |log| && log <= longer
    requires forall i :: |log| <= i < |longer| ==> SeedBlanked(cfg, newSeed, before, longer[i].after)
    ensures PropsStory(cfg, newSeed, before, faults, longer, from)
  {
    if newSeed && cfg.propsPath.Some? {
      var p, key := cfg.propsPath.value, cfg.seedKey;
      forall i | from <= i < |longer|
        ensures OldOrPartBlanked(before, longer[i].after, p, key)
        ensures i < |log| ==> longer[i] == log[i]
        ensures i >= |log| ==> OldOrBlanked(before, longer[i].after, p, key)
      {
      }
      assert PropsIntact(before, log, from, p, key) <==> PropsIntact(before, longer, from, p, key);
    }
  }

  lemma LogLonger(a: seq<Record>, b: seq<Record>, ok: bool)
    requires LogGrew(a, b, ok)
    ensures |a| <= |b|
  {
  }

  lemma NoLogYet(log: seq<Record>)
    ensures LogGrew(log, log, true)
  {
  }

  lemma LogGrewTwice(a: seq<Record>, b: seq<Record>, c: seq<Record>, ok: bool)
    requires LogGrew(a, b, true) && LogGrew(b, c, ok)
    ensures LogGrew(a, c, ok)
  {
    forall i | |a| <= i < |b|
      ensures c[i] == b[i] && b[i].ok
    {
    }
  }

  lemma BlankingLosesNothing(cfg: Config, stamp: string, before: Files, log: seq<Record>, from: nat)
    requires Apart(cfg, true, stamp, before)
    requires cfg.propsPath.None? ==> |log| == from
    requires cfg.propsPath.Some? ==>
      forall i :: from <= i < |log| ==> OnlyChanged(before, log[i].after, cfg.propsPath.value, cfg.propsPath.value)
    ensures NeverLost(cfg, stamp, before, log, from)
  {
    forall i | from <= i < |log|
      ensures NothingLost(cfg, stamp, before, log[i].after)
    {
      BeforeMoveLosesNothing(cfg, true, stamp, before, log[i].after);
    }
  }

  lemma ResetKeepsSeed(cfg: Config, newSeed: bool, stamp: string, before: Files, f: Files, g: Files, n: nat)
    requires Apart(cfg, newSeed, stamp, before) && n < |cfg.extras| && SeedBlanked(cfg, newSeed, before, f)
    requires ResetUnderWay(f, g, cfg.extras[n], BackupOf(cfg.extras[n], stamp))
    ensures SeedBlanked(cfg, newSeed, before, g)
  {
    if newSeed && cfg.propsPath.Some? {
      assert SameAt(f, g, cfg.propsPath.value);
    }
  }

  lemma CopyKeepsSeed(cfg: Config, newSeed: bool, stamp: string, before: Files, f: Files, g: Files, dest: Path)
    requires Apart(cfg, newSeed, stamp, before) && cfg.worldPath <= dest && SeedBlanked(cfg, newSeed, before, f)
    requires OnlyAddedAbove(f, g, dest)
    ensures SeedBlanked(cfg, newSeed, before, g)
  {
  }

  lemma ResettingIsSound(cfg: Config, newSeed: bool, stamp: string, before: Files, f: Files,
                         log: seq<Record>, from: nat, n: nat)
    requires Apart(cfg, newSeed, stamp, before) && n < |cfg.extras| && AfterMove(cfg, stamp, before, f, n)
    requires SeedBlanked(cfg, newSeed, before, f)
    requires forall i :: from <= i < |log| ==>
      ResetUnderWay(f, log[i].after, cfg.extras[n], BackupOf(cfg.extras[n], stamp))
    ensures AllSound(cfg, newSeed, stamp, before, log, from)
  {
    forall i: nat | from <= i < |log|
      ensures SoundCall(cfg, newSeed, stamp, before, log, i)
    {
      ResetLosesNothing(cfg, newSeed, stamp, before, f, log[i].after, n);
      ResetKeepsSeed(cfg, newSeed, stamp, before, f, log[i].after, n);
    }
  }

  lemma CopyingIsSound(cfg: Config, newSeed: bool, stamp: string, before: Files, f: Files,
                       log: seq<Record>, from: nat, k: nat)
    requires Apart(cfg, newSeed, stamp, before) && k < |cfg.templates| && AfterMove(cfg, stamp, before, f, |cfg.extras|)
    requires SeedBlanked(cfg, newSeed, before, f)
    requires forall i :: from <= i < |log| ==> OnlyAddedAbove(f, log[i].after, cfg.templates[k].dest)
    ensures AllSound(cfg, newSeed, stamp, before, log, from)
  {
    forall i: nat | from <= i < |log|
      ensures SoundCall(cfg, newSeed, stamp, before, log, i)
    {
      TemplateLosesNothing(cfg, newSeed, stamp, before, f, log[i].after, cfg.templates[k].dest);
      AfterMoveLosesNothing(cfg, stamp, before, log[i].after, |cfg.extras|);
      CopyKeepsSeed(cfg, newSeed, stamp, before, f, log[i].after, cfg.templates[k].dest);
    }
  }

  ghost predicate SetUp(cfg: Config, newSeed: bool, stamp: string, before: Files, cleared: bool) {
    Apart(cfg, newSeed, stamp, before) && (cleared ==> TemplatesApart(cfg, newSeed, stamp))
  }

  /** After the move and the first n resets: the seed blanked, and the new world if the templates lie apart. */
  ghost predicate Midway(cfg: Config, newSeed: bool, stamp: string, before: Files, g: Files, n: nat, copied: nat,
                         cleared: bool) {
    && AfterMove(cfg, stamp, before, g, n)
    && SeedBlanked(cfg, newSeed, before, g)
    && (cleared ==> NewWorld(cfg, before, g, copied))
  }

  /** The disk before and after the rename, once the seed is blanked. */
  lemma MovingIsSound(cfg: Config, newSeed: bool, stamp: string, before: Files, f: Files)
    requires Apart(cfg, newSeed, stamp, before) && BeforeMove(cfg, newSeed, before, f)
    requires SeedBlanked(cfg, newSeed, before, f)
    ensures var g := MovedIfThere(f, cfg.worldPath, PrevWorld(cfg.worldPath, stamp));
            && Sound(cfg, newSeed, stamp, before, f) && Sound(cfg, newSeed, stamp, before, g)
            && Midway(cfg, newSeed, stamp, before, g, 0, 0, TemplatesApart(cfg, newSeed, stamp))
  {
    MovingLosesNothing(cfg, newSeed, stamp, before, f);
    SeedMoved(cfg, newSeed, stamp, before, f);
    if TemplatesApart(cfg, newSeed, stamp) {
      MoveClearsWorld(cfg, newSeed, stamp, before, f);
    }
  }

  lemma {:induction false} BlankingIsQuiet(cfg: Config, stamp: string, before: Files, g: Files, log: seq<Record>,
                                           from: nat)
    requires cfg.propsPath.None? ==> g == before && |log| == from
    requires cfg.propsPath.Some? ==>
      && OnlyChanged(before, g, cfg.propsPath.value, cfg.propsPath.value)
      && forall i :: from <= i < |log| ==>
           OnlyChanged(before, log[i].after, cfg.propsPath.value, cfg.propsPath.value)
    ensures Quiet(cfg, true, stamp, before, g, log, from)
  {
    if cfg.propsPath.None? {
      NothingDoneIsQuiet(cfg, true, stamp, before, log);
    } else {
      var p := cfg.propsPath.value;
      ChangeIsQuiet(cfg, true, stamp, before, g, p, p);
      forall i: nat | from <= i < |log|
        ensures QuietCall(cfg, true, stamp, before, log, i)
      {
        ChangeIsQuiet(cfg, true, stamp, before, log[i].after, p, p);
      }
    }
  }

  lemma {:induction false} MovingIsQuiet(cfg: Config, newSeed: bool, stamp: string, f: Files, g: Files,
                                         log: seq<Record>, from: nat)
    requires g == f || g == MovedIfThere(f, cfg.worldPath, PrevWorld(cfg.worldPath, stamp))
    requires forall i :: from <= i < |log| ==> log[i].after == f || log[i].after == g
    ensures Quiet(cfg, newSeed, stamp, f, g, log, from)
  {
    NothingDoneIsQuiet(cfg, newSeed, stamp, f, log);
    MoveIsQuiet(cfg, newSeed, stamp, f);
    forall i: nat | from <= i < |log|
      ensures QuietCall(cfg, newSeed, stamp, f, log, i)
    {
      assert log[i].after == f || log[i].after == g;
    }
  }

  lemma {:induction false} ResettingIsQuiet(cfg: Config, newSeed: bool, stamp: string, f: Files, g: Files,
                                            log: seq<Record>, from: nat, n: nat)
    requires n < |cfg.extras| && ResetUnderWay(f, g, cfg.extras[n], BackupOf(cfg.extras[n], stamp))
    requires forall i :: from <= i < |log| ==>
      ResetUnderWay(f, log[i].after, cfg.extras[n], BackupOf(cfg.extras[n], stamp))
    ensures Quiet(cfg, newSeed, stamp, f, g, log, from)
  {
    var p, b := cfg.extras[n], BackupOf(cfg.extras[n], stamp);
    ChangeIsQuiet(cfg, newSeed, stamp, f, g, p, b);
    forall i: nat | from <= i < |log|
      ensures QuietCall(cfg, newSeed, stamp, f, log, i)
    {
      ChangeIsQuiet(cfg, newSeed, stamp, f, log[i].after, p, b);
    }
  }

  lemma {:induction false} CopyingIsQuiet(cfg: Config, newSeed: bool, stamp: string, f: Files, g: Files,
                                          log: seq<Record>, from: nat, k: nat)
    requires k < |cfg.templates| && OnlyAddedAbove(f, g, cfg.templates[k].dest)
    requires forall i :: from <= i < |log| ==> OnlyAddedAbove(f, log[i].after, cfg.templates[k].dest)
    ensures Quiet(cfg, newSeed, stamp, f, g, log, from)
  {
    AdditionIsQuiet(cfg, newSeed, stamp, f, g, k);
    forall i: nat | from <= i < |log|
      ensures QuietCall(cfg, newSeed, stamp, f, log, i)
    {
      AdditionIsQuiet(cfg, newSeed, stamp, f, log[i].after, k);
    }
  }

  /** The rename as a step of regenAt. */
  method MoveWorld(fs: FileSystem, cfg: Config, ghost newSeed: bool, stamp: string) returns (ok: bool)
    modifies fs
    ensures LogGrew(old(fs.log), fs.log, ok)
    ensures var moved := MovedIfThere(old(fs.files), cfg.worldPath, PrevWorld(cfg.worldPath, stamp));
            && fs.files == (if ok then moved else old(fs.files))
            && forall i :: |old(fs.log)| <= i < |fs.log| ==>
                 fs.log[i].after == fs.files || fs.log[i].after == old(fs.files)
    ensures Quiet(cfg, newSeed, stamp, old(fs.files), fs.files, fs.log, |old(fs.log)|)
  {
    ok := RenameWorldIfExists(fs, cfg.worldPath, stamp);
    MovingIsQuiet(cfg, newSeed, stamp, old(fs.files), fs.files, fs.log, |old(fs.log)|);
  }

  /** The seed, if a new one is asked for. */
  method BlankIfNew(fs: FileSystem, cfg: Config, newSeed: bool, ghost stamp: string) returns (ok: bool)
    modifies fs
    ensures LogGrew(old(fs.log), fs.log, ok)
    ensures BeforeMove(cfg, newSeed, old(fs.files), fs.files)
    ensures Apart(cfg, newSeed, stamp, old(fs.files)) ==>
      NeverLost(cfg, stamp, old(fs.files), fs.log, |old(fs.log)|)
    ensures PropsStory(cfg, newSeed, old(fs.files), fs.faults, fs.log, |old(fs.log)|)
    ensures ok ==> SeedBlanked(cfg, newSeed, old(fs.files), fs.files)
    ensures Quiet(cfg, newSeed, stamp, old(fs.files), fs.files, fs.log, |old(fs.log)|)
  {
    if !newSeed {
      NothingDoneIsQuiet(cfg, newSeed, stamp, fs.files, fs.log);
      return true;
    }
    ok := BlankSeedLine(fs, cfg.propsPath, cfg.seedKey);
    BlankingIsQuiet(cfg, stamp, old(fs.files), fs.files, fs.log, |old(fs.log)|);
    if Apart(cfg, newSeed, stamp, old(fs.files)) {
      BlankingLosesNothing(cfg, stamp, old(fs.files), fs.log, |old(fs.log)|);
    }
  }

  /** What the rename adds to what was known before it. */
  lemma {:induction false} MoveTold(cfg: Config, newSeed: bool, stamp: string, before: Files, f: Files, g: Files,
                                    faults: nat -> Fault, log: seq<Record>, longer: seq<Record>, ok: bool, from: nat)
    requires Apart(cfg, newSeed, stamp, before) && BeforeMove(cfg, newSeed, before, f)
    requires SeedBlanked(cfg, newSeed, before, f)
    requires g == f || g == MovedIfThere(f, cfg.worldPath, PrevWorld(cfg.worldPath, stamp))
    requires from <= |log| && LogGrew(log, longer, ok)
    requires forall i :: |log| <= i < |longer| ==> longer[i].after == f || longer[i].after == g
    requires NeverLost(cfg, stamp, before, log, from) && PropsStory(cfg, newSeed, before, faults, log, from)
    ensures NeverLost(cfg, stamp, before, longer, from) && PropsStory(cfg, newSeed, before, faults, longer, from)
    ensures NothingLost(cfg, stamp, before, g)
  {
    MovingIsSound(cfg, newSeed, stamp, before, f);
    StoryGoesOn(cfg, newSeed, before, faults, log, longer, from);
    forall i | from <= i < |longer|
      ensures NothingLost(cfg, stamp, before, longer[i].after)
    {
      if i < |log| {
        assert longer[i] == log[i];
      } else {
        assert longer[i].after == f || longer[i].after == g;
      }
    }
  }

  /** regenAt up to the rename. */
  method BlankAndMove(fs: FileSystem, cfg: Config, newSeed: bool, stamp: string) returns (ok: bool)
    modifies fs
    ensures LogGrew(old(fs.log), fs.log, ok)
    ensures Apart(cfg, newSeed, stamp, old(fs.files)) ==>
      && NeverLost(cfg, stamp, old(fs.files), fs.log, |old(fs.log)|) && NothingLost(cfg, stamp, old(fs.files), fs.files)
      && (ok ==> Midway(cfg, newSeed, stamp, old(fs.files), fs.files, 0, 0, TemplatesApart(cfg, newSeed, stamp)))
      && PropsStory(cfg, newSeed, old(fs.files), fs.faults, fs.log, |old(fs.log)|)
    ensures Quiet(cfg, newSeed, stamp, old(fs.files), fs.files, fs.log, |old(fs.log)|)
  {
    hide *;
    ghost var before, start := fs.files, |fs.log|;
    ok := BlankIfNew(fs, cfg, newSeed, stamp);
    ghost var blanked, middle := fs.files, fs.log;
    if !ok {
      if Apart(cfg, newSeed, stamp, before) {
        BeforeMoveLosesNothing(cfg, newSeed, stamp, before, blanked);
      }
      return false;
    }
    ok := MoveWorld(fs, cfg, newSeed, stamp);
    LogGrewTwice(old(fs.log), middle, fs.log, ok);
    QuietOn(cfg, newSeed, stamp, before, blanked, middle, fs.files, fs.log, ok, start);
    if Apart(cfg, newSeed, stamp, before) {
      MovingIsSound(cfg, newSeed, stamp, before, blanked);
      MoveTold(cfg, newSeed, stamp, before, blanked, fs.files, fs.faults, middle, fs.log, ok, start);
    }
  }

  lemma MovingLosesNothing(cfg: Config, newSeed: bool, stamp: string, before: Files, f: Files)
    requires Apart(cfg, newSeed, stamp, before) && BeforeMove(cfg, newSeed, before, f)
    ensures var g := MovedIfThere(f, cfg.worldPath, PrevWorld(cfg.worldPath, stamp));
            && NothingLost(cfg, stamp, before, f) && NothingLost(cfg, stamp, before, g)
            && AfterMove(cfg, stamp, before, g, 0)
  {
    BeforeMoveLosesNothing(cfg, newSeed, stamp, before, f);
    MoveLosesNothing(cfg, newSeed, stamp, before, f);
    AfterMoveLosesNothing(cfg, stamp, before, MovedIfThere(f, cfg.worldPath, PrevWorld(cfg.worldPath, stamp)), 0);
  }

  lemma SeedMoved(cfg: Config, newSeed: bool, stamp: string, before: Files, f: Files)
    requires Apart(cfg, newSeed, stamp, before) && BeforeMove(cfg, newSeed, before, f)
    ensures SeedBlanked(cfg, newSeed, before, f) ==>
      SeedBlanked(cfg, newSeed, before, MovedIfThere(f, cfg.worldPath, PrevWorld(cfg.worldPath, stamp)))
  {
    BackupDiffers(cfg.worldPath, stamp);
    BeforeMoveTrees(cfg, newSeed, stamp, before, f);
    if newSeed && cfg.propsPath.Some? {
      StaysPut(f, cfg.worldPath, PrevWorld(cfg.worldPath, stamp), cfg.propsPath.value);
    }
  }

  lemma {:induction false} MidwayLosesNothing(cfg: Config, newSeed: bool, stamp: string, before: Files, g: Files,
                                              n: nat, copied: nat, cleared: bool)
    requires Midway(cfg, newSeed, stamp, before, g, n, copied, cleared)
    ensures NothingLost(cfg, stamp, before, g)
  {
    AfterMoveLosesNothing(cfg, stamp, before, g, n);
  }

  lemma ResetTurn(cfg: Config, newSeed: bool, stamp: string, before: Files, f: Files, g: Files, n: nat,
                  cleared: bool)
    requires SetUp(cfg, newSeed, stamp, before, cleared)
    requires n < |cfg.extras| && Midway(cfg, newSeed, stamp, before, f, n, 0, cleared)
    requires ResetUnderWay(f, g, cfg.extras[n], BackupOf(cfg.extras[n], stamp))
    requires if cfg.extras[n] in f then g == Reset(f, cfg.extras[n], stamp) else g == f
    ensures Midway(cfg, newSeed, stamp, before, g, n + 1, 0, cleared)
  {
    ResetDone(cfg, newSeed, stamp, before, f, g, n);
    ResetKeepsSeed(cfg, newSeed, stamp, before, f, g, n);
    if cleared {
      ResetKeepsNewWorld(cfg, newSeed, stamp, before, f, g, n);
    }
  }

  lemma CopyTurn(cfg: Config, newSeed: bool, stamp: string, before: Files, f: Files, g: Files, k: nat,
                 cleared: bool)
    requires SetUp(cfg, newSeed, stamp, before, cleared)
    requires k < |cfg.templates| && Midway(cfg, newSeed, stamp, before, f, |cfg.extras|, k, cleared)
    requires OnlyAddedAbove(f, g, cfg.templates[k].dest)
    ensures NothingLost(cfg, stamp, before, g)
    ensures TemplateTaken(cfg.templates[k], f, g) ==>
      Midway(cfg, newSeed, stamp, before, g, |cfg.extras|, k + 1, cleared)
  {
    TemplateLosesNothing(cfg, newSeed, stamp, before, f, g, cfg.templates[k].dest);
    AfterMoveLosesNothing(cfg, stamp, before, g, |cfg.extras|);
    CopyKeepsSeed(cfg, newSeed, stamp, before, f, g, cfg.templates[k].dest);
    if cleared && TemplateTaken(cfg.templates[k], f, g) {
      CopyExtendsNewWorld(cfg, newSeed, stamp, before, f, g, k);
    }
  }

  lemma {:induction false} NothingYetSound(cfg: Config, newSeed: bool, stamp: string, before: Files, log: seq<Record>)
    ensures AllSound(cfg, newSeed, stamp, before, log, |log|)
  {
  }

  lemma SoundTwice(cfg: Config, newSeed: bool, stamp: string, before: Files,
                   log: seq<Record>, longer: seq<Record>, ok: bool, from: nat)
    requires from <= |log| && LogGrew(log, longer, ok)
    requires AllSound(cfg, newSeed, stamp, before, log, from) && AllSound(cfg, newSeed, stamp, before, longer, |log|)
    ensures AllSound(cfg, newSeed, stamp, before, longer, from)
  {
    forall i: nat | from <= i < |longer|
      ensures SoundCall(cfg, newSeed, stamp, before, longer, i)
    {
      if i < |log| {
        assert SoundCall(cfg, newSeed, stamp, before, log, i) && longer[i] == log[i];
      }
    }
  }

  /** One turn of regenAt's loop over the extra files; before is the disk the procedure started from. */
  method ResetOne(fs: FileSystem, cfg: Config, ghost newSeed: bool, stamp: string, ghost before: Files,
                  ghost cleared: bool, i: nat) returns (ok: bool)
    requires i < |cfg.extras|
    modifies fs
    ensures LogGrew(old(fs.log), fs.log, ok)
    ensures SetUp(cfg, newSeed, stamp, before, cleared) ==>
      Midway(cfg, newSeed, stamp, before, old(fs.files), i, 0, cleared) ==>
      && AllSound(cfg, newSeed, stamp, before, fs.log, |old(fs.log)|) && NothingLost(cfg, stamp, before, fs.files)
      && (ok ==> Midway(cfg, newSeed, stamp, before, fs.files, i + 1, 0, cleared))
    ensures ok ==> fs.files == ResetIfThere(old(fs.files), cfg.extras[i], stamp)
    ensures Quiet(cfg, newSeed, stamp, old(fs.files), fs.files, fs.log, |old(fs.log)|)
  {
    ghost var f := fs.files;
    ok := ResetExtraFile(fs, cfg.extras[i], stamp);
    ResettingIsQuiet(cfg, newSeed, stamp, f, fs.files, fs.log, |old(fs.log)|, i);
    if SetUp(cfg, newSeed, stamp, before, cleared) && Midway(cfg, newSeed, stamp, before, f, i, 0, cleared) {
      ResettingIsSound(cfg, newSeed, stamp, before, f, fs.log, |old(fs.log)|, i);
      ResetLosesNothing(cfg, newSeed, stamp, before, f, fs.files, i);
      if ok {
        ResetTurn(cfg, newSeed, stamp, before, f, fs.files, i, cleared);
      }
    }
  }

  /** regenAt's loop over the extra files. */
  method ResetAll(fs: FileSystem, cfg: Config, ghost newSeed: bool, stamp: string, ghost before: Files,
                  ghost cleared: bool) returns (ok: bool)
    modifies fs
    ensures LogGrew(old(fs.log), fs.log, ok)
    ensures SetUp(cfg, newSeed, stamp, before, cleared) ==>
      Midway(cfg, newSeed, stamp, before, old(fs.files), 0, 0, cleared) ==>
      && AllSound(cfg, newSeed, stamp, before, fs.log, |old(fs.log)|) && NothingLost(cfg, stamp, before, fs.files)
      && (ok ==> Midway(cfg, newSeed, stamp, before, fs.files, |cfg.extras|, 0, cleared))
    ensures ok ==> fs.files == ResetEach(old(fs.files), cfg.extras, |cfg.extras|, stamp)
    ensures Quiet(cfg, newSeed, stamp, old(fs.files), fs.files, fs.log, |old(fs.log)|)
  {
    hide *;
    ResetsStepByStep(fs.files, cfg.extras, 0, stamp);
    NoLogYet(fs.log);
    NothingYetSound(cfg, newSeed, stamp, before, fs.log);
    NothingDoneIsQuiet(cfg, newSeed, stamp, fs.files, fs.log);
    ghost var apart := SetUp(cfg, newSeed, stamp, before, cleared)
      && Midway(cfg, newSeed, stamp, before, fs.files, 0, 0, cleared);
    for i := 0 to |cfg.extras|
      invariant LogGrew(old(fs.log), fs.log, true)
      invariant apart ==> AllSound(cfg, newSeed, stamp, before, fs.log, |old(fs.log)|)
      invariant apart ==> Midway(cfg, newSeed, stamp, before, fs.files, i, 0, cleared)
      invariant fs.files == ResetEach(old(fs.files), cfg.extras, i, stamp)
      invariant Quiet(cfg, newSeed, stamp, old(fs.files), fs.files, fs.log, |old(fs.log)|)
    {
      ghost var f, log := fs.files, fs.log;
      ResetsStepByStep(old(fs.files), cfg.extras, i, stamp);
      ok := ResetOne(fs, cfg, newSeed, stamp, before, cleared, i);
      LogGrewTwice(old(fs.log), log, fs.log, ok);
      LogLonger(old(fs.log), log, true);
      QuietOn(cfg, newSeed, stamp, old(fs.files), f, log, fs.files, fs.log, ok, |old(fs.log)|);
      if apart {
        SoundTwice(cfg, newSeed, stamp, before, log, fs.log, ok, |old(fs.log)|);
      }
      if !ok {
        return false;
      }
    }
    if apart {
      MidwayLosesNothing(cfg, newSeed, stamp, before, fs.files, |cfg.extras|, 0, cleared);
    }
    ok := true;
  }

  /** One turn of regenAt's loop over the templates. */
  method CopyOne(fs: FileSystem, cfg: Config, ghost newSeed: bool, ghost stamp: string, ghost before: Files,
                 ghost cleared: bool, k: nat) returns (ok: bool)
    requires k < |cfg.templates|
    modifies fs
    ensures LogGrew(old(fs.log), fs.log, ok)
    ensures SetUp(cfg, newSeed, stamp, before, cleared) ==>
      Midway(cfg, newSeed, stamp, before, old(fs.files), |cfg.extras|, k, cleared) ==>
      && AllSound(cfg, newSeed, stamp, before, fs.log, |old(fs.log)|) && NothingLost(cfg, stamp, before, fs.files)
      && (ok ==> Midway(cfg, newSeed, stamp, before, fs.files, |cfg.extras|, k + 1, cleared))
    ensures Quiet(cfg, newSeed, stamp, old(fs.files), fs.files, fs.log, |old(fs.log)|)
  {
    ghost var f := fs.files;
    ok := CopySeedTemplate(fs, cfg.templates[k]);
    CopyingIsQuiet(cfg, newSeed, stamp, f, fs.files, fs.log, |old(fs.log)|, k);
    if SetUp(cfg, newSeed, stamp, before, cleared)
      && Midway(cfg, newSeed, stamp, before, f, |cfg.extras|, k, cleared) {
      CopyingIsSound(cfg, newSeed, stamp, before, f, fs.log, |old(fs.log)|, k);
      CopyTurn(cfg, newSeed, stamp, before, f, fs.files, k, cleared);
    }
  }

  /** regenAt's loop over the templates. */
  method CopyAll(fs: FileSystem, cfg: Config, ghost newSeed: bool, ghost stamp: string, ghost before: Files,
                 ghost cleared: bool) returns (ok: bool)
    modifies fs
    ensures LogGrew(old(fs.log), fs.log, ok)
    ensures SetUp(cfg, newSeed, stamp, before, cleared) ==>
      Midway(cfg, newSeed, stamp, before, old(fs.files), |cfg.extras|, 0, cleared) ==>
      && AllSound(cfg, newSeed, stamp, before, fs.log, |old(fs.log)|) && NothingLost(cfg, stamp, before, fs.files)
      && (ok ==> Midway(cfg, newSeed, stamp, before, fs.files, |cfg.extras|, |cfg.templates|, cleared))
    ensures Quiet(cfg, newSeed, stamp, old(fs.files), fs.files, fs.log, |old(fs.log)|)
  {
    hide *;
    NoLogYet(fs.log);
    NothingYetSound(cfg, newSeed, stamp, before, fs.log);
    NothingDoneIsQuiet(cfg, newSeed, stamp, fs.files, fs.log);
    ghost var apart := SetUp(cfg, newSeed, stamp, before, cleared)
      && Midway(cfg, newSeed, stamp, before, fs.files, |cfg.extras|, 0, cleared);
    for k := 0 to |cfg.templates|
      invariant LogGrew(old(fs.log), fs.log, true)
      invariant apart ==> AllSound(cfg, newSeed, stamp, before, fs.log, |old(fs.log)|)
      invariant apart ==> Midway(cfg, newSeed, stamp, before, fs.files, |cfg.extras|, k, cleared)
      invariant Quiet(cfg, newSeed, stamp, old(fs.files), fs.files, fs.log, |old(fs.log)|)
    {
      ghost var f, log := fs.files, fs.log;
      ok := CopyOne(fs, cfg, newSeed, stamp, before, cleared, k);
      LogGrewTwice(old(fs.log), log, fs.log, ok);
      LogLonger(old(fs.log), log, true);
      QuietOn(cfg, newSeed, stamp, old(fs.files), f, log, fs.files, fs.log, ok, |old(fs.log)|);
      if apart {
        SoundTwice(cfg, newSeed, stamp, before, log, fs.log, ok, |old(fs.log)|);
      }
      if !ok {
        return false;
      }
    }
    if apart {
      MidwayLosesNothing(cfg, newSeed, stamp, before, fs.files, |cfg.extras|, |cfg.templates|, cleared);
    }
    ok := true;
  }

  /** What holds of the calls made so far, whatever becomes of the last. */
  ghost predicate SafeSoFar(cfg: Config, newSeed: bool, stamp: string, before: Files,
                            faults: nat -> Fault, log: seq<Record>) {
    NeverLost(cfg, stamp, before, log, 0) && PropsStory(cfg, newSeed, before, faults, log, 0)
  }

  lemma SafeGoesOn(cfg: Config, newSeed: bool, stamp: string, before: Files, faults: nat -> Fault,
                   log: seq<Record>, longer: seq<Record>, ok: bool)
    requires SafeSoFar(cfg, newSeed, stamp, before, faults, log) && LogGrew(log, longer, ok)
    requires AllSound(cfg, newSeed, stamp, before, longer, |log|)
    ensures SafeSoFar(cfg, newSeed, stamp, before, faults, longer)
  {
    forall i: nat | i < |longer|
      ensures NothingLost(cfg, stamp, before, longer[i].after)
      ensures i >= |log| ==> SeedBlanked(cfg, newSeed, before, longer[i].after)
    {
      if i < |log| {
        assert longer[i] == log[i];
      } else {
        assert SoundCall(cfg, newSeed, stamp, before, longer, i);
      }
    }
    StoryGoesOn(cfg, newSeed, before, faults, log, longer, 0);
  }

  /** The rest of regenAt: the extra files and then the templates. */
  method ResetAndCopy(fs: FileSystem, cfg: Config, ghost newSeed: bool, stamp: string, ghost before: Files,
                      ghost cleared: bool) returns (ok: bool)
    modifies fs
    ensures LogGrew(old(fs.log), fs.log, ok)
    ensures SetUp(cfg, newSeed, stamp, before, cleared) ==>
      Midway(cfg, newSeed, stamp, before, old(fs.files), 0, 0, cleared) ==>
      SafeSoFar(cfg, newSeed, stamp, before, fs.faults, old(fs.log)) ==>
      && SafeSoFar(cfg, newSeed, stamp, before, fs.faults, fs.log) && NothingLost(cfg, stamp, before, fs.files)
      && (ok ==> Midway(cfg, newSeed, stamp, before, fs.files, |cfg.extras|, |cfg.templates|, cleared))
    ensures Quiet(cfg, newSeed, stamp, old(fs.files), fs.files, fs.log, |old(fs.log)|)
  {
    hide *;
    ghost var apart := SetUp(cfg, newSeed, stamp, before, cleared)
      && Midway(cfg, newSeed, stamp, before, fs.files, 0, 0, cleared)
      && SafeSoFar(cfg, newSeed, stamp, before, fs.faults, fs.log);
    ok := ResetAll(fs, cfg, newSeed, stamp, before, cleared);
    if apart {
      SafeGoesOn(cfg, newSeed, stamp, before, fs.faults, old(fs.log), fs.log, ok);
    }
    if !ok {
      return false;
    }
    ghost var f, middle := fs.files, fs.log;
    ok := CopyAll(fs, cfg, newSeed, stamp, before, cleared);
    LogGrewTwice(old(fs.log), middle, fs.log, ok);
    LogLonger(old(fs.log), middle, true);
    QuietOn(cfg, newSeed, stamp, old(fs.files), f, middle, fs.files, fs.log, ok, |old(fs.log)|);
    if apart {
      SafeGoesOn(cfg, newSeed, stamp, before, fs.faults, middle, fs.log, ok);
    }
  }

  lemma {:induction false} SafeThen(cfg: Config, newSeed: bool, stamp: string, before: Files, faults: nat -> Fault,
                                    log: seq<Record>)
    requires Apart(cfg, newSeed, stamp, before)
    requires NeverLost(cfg, stamp, before, log, 0) && PropsStory(cfg, newSeed, before, faults, log, 0)
    ensures SafeSoFar(cfg, newSeed, stamp, before, faults, log)
    ensures SetUp(cfg, newSeed, stamp, before, TemplatesApart(cfg, newSeed, stamp))
  {
  }

  lemma {:induction false} EverythingElseStays(cfg: Config, newSeed: bool, stamp: string, f: Files, g: Files,
                                               log: seq<Record>)
    requires Quiet(cfg, newSeed, stamp, f, g, log, 0)
    ensures forall q: Path :: q in f && Bystander(cfg, newSeed, stamp, q) ==> q in g && g[q] == f[q]
  {
    forall q: Path | q in f && Bystander(cfg, newSeed, stamp, q)
      ensures q in g && g[q] == f[q]
    {
      assert KeptAt(cfg, newSeed, stamp, f, g, q);
    }
  }

  method RegenAt(fs: FileSystem, cfg: Config, newSeed: bool, stamp: string, backendReachable: bool)
    returns (res: Outcome)
    requires fs.log == []
    modifies fs
    ensures backendReachable <==> res == StillRunning
    ensures backendReachable ==> fs.log == [] && fs.files == old(fs.files)
    ensures LogGrew([], fs.log, res != Failed)
    ensures Apart(cfg, newSeed, stamp, old(fs.files)) && !backendReachable ==>
      && SafeSoFar(cfg, newSeed, stamp, old(fs.files), fs.faults, fs.log)
      && NothingLost(cfg, stamp, old(fs.files), fs.files)
      && (res == Regenerated ==>
            Midway(cfg, newSeed, stamp, old(fs.files), fs.files, |cfg.extras|, |cfg.templates|,
                   TemplatesApart(cfg, newSeed, stamp)))
    ensures Quiet(cfg, newSeed, stamp, old(fs.files), fs.files, fs.log, 0)
    ensures forall q: Path :: q in old(fs.files) && Bystander(cfg, newSeed, stamp, q) ==>
      q in fs.files && fs.files[q] == old(fs.files)[q]
  {
    hide *;
    NoLogYet(fs.log);
    NothingDoneIsQuiet(cfg, newSeed, stamp, fs.files, fs.log);
    if backendReachable {
      return StillRunning;
    }
    ghost var before := fs.files;
    var ok := BlankAndMove(fs, cfg, newSeed, stamp);
    if Apart(cfg, newSeed, stamp, before) {
      SafeThen(cfg, newSeed, stamp, before, fs.faults, fs.log);
    }
    if !ok {
      EverythingElseStays(cfg, newSeed, stamp, before, fs.files, fs.log);
      return Failed;
    }
    ghost var f, middle := fs.files, fs.log;
    ok := ResetAndCopy(fs, cfg, newSeed, stamp, before, TemplatesApart(cfg, newSeed, stamp));
    LogGrewTwice([], middle, fs.log, ok);
    QuietOn(cfg, newSeed, stamp, before, f, middle, fs.files, fs.log, ok, 0);
    EverythingElseStays(cfg, newSeed, stamp, before, fs.files, fs.log);
    res := if ok then Regenerated else Failed;
  }
}
