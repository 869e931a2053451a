/** A file system as a map from paths to nodes. Every call may fail, a write also part-way, and each is logged. */
module Disk {
  import opened Wrappers

  type Path = p: seq<string> | p != [] witness [[]]

  /** A char stands for one byte. */
  datatype Node = Dir | File(data: string)

  type Files = map<Path, Node>

  datatype Fault = Fine | Refused | CutShort(n: nat)

  /** One call that could fail: whether it succeeded, and the files after it. */
  datatype Record = Record(ok: bool, after: Files)

  // ----- Effects -----

  /** os.WriteFile: a write cut short leaves the beginning of the data. */
  function Written(files: Files, p: Path, data: string, fault: Fault): Record {
    if fault.Refused? || (p in files && files[p].Dir?) then Record(false, files)
    else if fault.CutShort? then Record(false, files[p := File(data[..if fault.n < |data| then fault.n else |data|])])
    else Record(true, files[p := File(data)])
  }

  /** The paths at and under p, relative to it. */
  function Inside(files: Files, p: Path): (rels: set<seq<string>>)
    ensures forall rel :: rel in rels <==> p + rel in files
  {
    var rels := set q | q in files && p <= q :: q[|p|..];
    assert forall rel :: p + rel in files ==> (p + rel)[|p|..] == rel;
    assert forall q :: q in files && p <= q ==> p + q[|p|..] == q;
    rels
  }

  /** Everything at and under p. */
  function Tree(files: Files, p: Path): map<seq<string>, Node> {
    map rel | rel in Inside(files, p) :: files[p + rel]
  }

  predicate Free(files: Files, p: Path) {
    Inside(files, p) == {}
  }

  /** The whole tree at p taken to q. */
  function Moved(files: Files, p: Path, q: Path): Files {
    var outside := map r | r in files && !(p <= r) :: files[r];
    var targets := set rel | rel in Inside(files, p) :: q + rel;
    outside + map r | r in targets :: TargetOf(files, p, q, r)
  }

  function TargetOf(files: Files, p: Path, q: Path, r: seq<string>): Node
    requires exists rel :: rel in Inside(files, p) && r == q + rel
  {
    assert forall rel :: q + rel == r ==> rel == (q + rel)[|q|..];
    files[p + r[|q|..]]
  }

  function Renamed(files: Files, p: Path, q: Path, fault: Fault): Record {
    if !fault.Fine? || p !in files || !Free(files, q) then Record(false, files)
    else Record(true, Moved(files, p, q))
  }

  /** Missing directories made along p, down to depth n. */
  function WithDirs(files: Files, p: seq<string>, n: nat): Files
    requires n <= |p|
  {
    if n == 0 then files else
    var upper := WithDirs(files, p, n - 1);
    if p[..n] in upper then upper else upper[p[..n] := Dir]
  }

  predicate FileInTheWay(files: Files, p: seq<string>) {
    exists n :: 0 < n <= |p| && p[..n] in files && files[p[..n]].File?
  }

  function DirsMade(files: Files, p: seq<string>, fault: Fault): Record {
    if fault.Refused? || FileInTheWay(files, p) then Record(false, files)
    else if fault.CutShort? then Record(false, WithDirs(files, p, if fault.n < |p| then fault.n else |p|))
    else Record(true, WithDirs(files, p, |p|))
  }

  // ----- The calls -----

  class FileSystem {
    var files: Files
    var log: seq<Record>
    const faults: nat -> Fault // of the n-th call

    constructor (files: Files, faults: nat -> Fault)
      ensures this.files == files && log == [] && this.faults == faults
    {
      this.files := files;
      this.log := [];
      this.faults := faults;
    }

    /** os.Stat, as far as os.IsNotExist of its error. */
    predicate Exists(p: Path)
      reads this
    {
      p in files
    }

    method ReadFile(p: Path) returns (data: Option<string>)
      modifies this
      ensures files == old(files) && log == old(log) + [Record(data.Some?, files)]
      ensures data.Some? <==> faults(|old(log)|).Fine? && p in files && files[p].File?
      ensures data.Some? ==> files[p] == File(data.value)
    {
      data := if faults(|log|).Fine? && p in files && files[p].File? then Some(files[p].data) else None;
      log := log + [Record(data.Some?, files)];
    }

    method WriteFile(p: Path, data: string) returns (ok: bool)
      modifies this
      ensures log == old(log) + [Written(old(files), p, data, faults(|old(log)|))]
      ensures Record(ok, files) == Written(old(files), p, data, faults(|old(log)|))
    {
      var r := Written(files, p, data, faults(|log|));
      ok, files, log := r.ok, r.after, log + [r];
    }

    method Rename(p: Path, q: Path) returns (ok: bool)
      modifies this
      ensures log == old(log) + [Renamed(old(files), p, q, faults(|old(log)|))]
      ensures Record(ok, files) == Renamed(old(files), p, q, faults(|old(log)|))
    {
      var r := Renamed(files, p, q, faults(|log|));
      ok, files, log := r.ok, r.after, log + [r];
    }

    method MkdirAll(p: seq<string>) returns (ok: bool)
      modifies this
      ensures log == old(log) + [DirsMade(old(files), p, faults(|old(log)|))]
      ensures Record(ok, files) == DirsMade(old(files), p, faults(|old(log)|))
    {
      var r := DirsMade(files, p, faults(|log|));
      ok, files, log := r.ok, r.after, log + [r];
    }
  }

  // ----- What the effects leave alone -----

  lemma {:induction false} WithDirsOnlyAdds(files: Files, p: seq<string>, n: nat)
    requires n <= |p|
    ensures forall q :: q in files ==> q in WithDirs(files, p, n) && WithDirs(files, p, n)[q] == files[q]
    ensures forall q :: q in WithDirs(files, p, n) ==> q in files || q <= p
  {
    if n > 0 {
      WithDirsOnlyAdds(files, p, n - 1);
    }
  }

  lemma PrefixOfPart(p: seq<string>, q: seq<string>, rel: seq<string>)
    ensures p <= q + rel ==> p <= q || q <= p
  {
    if p <= q + rel {
      if |p| <= |q| {
        assert p == (q + rel)[..|p|] == q[..|p|];
      } else {
        assert q == (q + rel)[..|q|] == p[..|q|];
      }
    }
  }

  lemma UnderIsInside(files: Files, p: Path, r: Path)
    ensures r in files && p <= r ==> r[|p|..] in Inside(files, p)
  {
    if p <= r {
      assert p + r[|p|..] == r;
    }
  }

  lemma MovedAt(files: Files, p: Path, q: Path, rel: seq<string>)
    requires Free(files, q) && !(p <= q) && !(q <= p)
    ensures q + rel in Moved(files, p, q) <==> p + rel in files
    ensures p + rel in files ==> Moved(files, p, q)[q + rel] == files[p + rel]
  {
    assert (q + rel)[|q|..] == rel;
    PrefixOfPart(p, q, rel);
    assert q + rel in files <==> rel in Inside(files, q);
  }

  lemma NotMoved(files: Files, p: Path, q: Path, r: Path)
    requires !(q <= r)
    ensures r in Moved(files, p, q) <==> r in files && !(p <= r)
    ensures r in Moved(files, p, q) ==> Moved(files, p, q)[r] == files[r]
  {
  }

  lemma TreeTaken(files: Files, p: Path, q: Path)
    requires Free(files, q) && !(p <= q) && !(q <= p)
    ensures Tree(Moved(files, p, q), q) == Tree(files, p)
  {
    forall rel
      ensures q + rel in Moved(files, p, q) <==> p + rel in files
      ensures p + rel in files ==> Moved(files, p, q)[q + rel] == files[p + rel]
    {
      MovedAt(files, p, q, rel);
    }
  }

  lemma NothingBehind(files: Files, p: Path, q: Path)
    requires !(p <= q) && !(q <= p)
    ensures Free(Moved(files, p, q), p)
  {
    forall rel
      ensures p + rel !in Moved(files, p, q)
    {
      PrefixOfPart(q, p, rel);
      NotMoved(files, p, q, p + rel);
    }
  }

  /** A move to a free place takes the whole tree there and touches nothing else. */
  lemma MoveKeepsTree(files: Files, p: Path, q: Path)
    requires Free(files, q) && !(p <= q) && !(q <= p)
    ensures Tree(Moved(files, p, q), q) == Tree(files, p)
    ensures forall r: Path :: !(p <= r) && !(q <= r) ==> (r in Moved(files, p, q) <==> r in files)
    ensures forall r: Path :: r in files && !(p <= r) ==> r in Moved(files, p, q) && Moved(files, p, q)[r] == files[r]
    ensures Free(Moved(files, p, q), p)
  {
    TreeTaken(files, p, q);
    NothingBehind(files, p, q);
    forall r: Path | r in files
      ensures !(q <= r)
    {
      UnderIsInside(files, q, r);
    }
  }
}
