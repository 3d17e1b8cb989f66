/** Where a run of effects on an empty file system leaves every object. */
module Placement {
  import opened Bytes
  import opened Records
  import opened FileSystem
  import opened OperRestore
  import opened Damage
  import opened Sums

  /** The destination directory. */
  const ROOT: Path := [SLASH]

  /** A file system that has just been made. */
  const Empty := World(FS(map[ROOT := OtherNode(DIR, [])], []), NoStats)

  predicate MakesInode(op: Op) {
    op.PutFile? || op.EmptyFile? || op.DropFile?
  }

  predicate KeepsFile(op: Op) {
    op.PutFile? || op.EmptyFile?
  }

  /** How many inodes a run makes. */
  function Inodes(ops: seq<Op>): nat {
    if ops == [] then 0 else Inodes(ops[..|ops| - 1]) + if MakesInode(ops[|ops| - 1]) then 1 else 0
  }

  /** A regular file is made, and kept, under this path. */
  predicate FileIn(ops: seq<Op>, path: Path) {
    exists k :: 0 <= k < |ops| && ops[k].path == path && KeepsFile(ops[k])
  }

  /** Targets of hard links are not hard links themselves. */
  predicate LinksDirect(ops: seq<Op>) {
    forall j, k :: 0 <= j < |ops| && 0 <= k < |ops| && ops[j].PutLink? && ops[k].PutLink? ==>
      ops[j].target != ops[k].path
  }

  /** A hard link and the file that it names have the same attributes. */
  predicate AttrsAgree(ops: seq<Op>) {
    forall j, k :: 0 <= j < |ops| && 0 <= k < |ops| && ops[j].PutLink? && ops[k].PutFile? &&
                   ops[j].target == ops[k].path ==>
      ops[j].attrs == ops[k].attrs
  }

  predicate HasInode(fs: FS, path: Path, ino: nat) {
    path in fs.names && fs.names[path] == FileNode(ino) && ino < |fs.inodes| && fs.inodes[ino].Inode?
  }

  predicate PlacedAt(ops: seq<Op>, j: nat, fs: FS, agree: bool)
    requires j < |ops|
  {
    var ino := Inodes(ops[..j]);
    match ops[j]
    case PutFile(path, content, attrs) =>
      HasInode(fs, path, ino) && fs.inodes[ino].content == content && (agree ==> fs.inodes[ino].attrs == attrs)
    case EmptyFile(path) => HasInode(fs, path, ino) && fs.inodes[ino].content == []
    case PutOther(path, objtype, attrs) => path in fs.names && fs.names[path] == OtherNode(objtype, attrs)
    case PutLink(path, target, _) =>
      if FileIn(ops[..j], target) then path in fs.names && target in fs.names && fs.names[path] == fs.names[target]
      else path !in fs.names
    case DropFile(path) => path !in fs.names
    case _ => true
  }

  /** A directory above something that was restored, or at least tried. */
  predicate Above(ops: seq<Op>, p: Path) {
    exists k :: 0 <= k < |ops| && Touches(ops[k]) && Ancestor(p, ops[k].path)
  }

  /** Restoring is tried under this path. */
  predicate Tried(ops: seq<Op>, p: Path) {
    exists k :: 0 <= k < |ops| && Touches(ops[k]) && ops[k].path == p
  }

  /** Names come from the objects themselves, or are directories above them with default attributes. */
  ghost predicate NamesExplained(ops: seq<Op>, fs: FS) {
    && (forall p :: p in fs.names && !Tried(ops, p) ==>
        (p == ROOT || Above(ops, p)) && fs.names[p] == OtherNode(DIR, []))
    && (forall p :: p == ROOT || Above(ops, p) ==> IsDir(fs, p))
  }

  ghost predicate Placed(ops: seq<Op>, fs: FS, agree: bool) {
    && |fs.inodes| == Inodes(ops) && FsOk(fs) && NamesExplained(ops, fs)
    && (forall j :: 0 <= j < |ops| ==> PlacedAt(ops, j, fs, agree))
  }

  predicate Sound(ops: seq<Op>) {
    Runnable(Empty.fs, ops) && LinksDirect(ops)
  }

  lemma {:induction false} InodesGrow(ops: seq<Op>, j: nat, k: nat)
    requires j < k <= |ops|
    ensures Inodes(ops[..j]) + (if MakesInode(ops[j]) then 1 else 0) <= Inodes(ops[..k])
  {
    assert ops[..k][..k - 1] == ops[..k - 1];
    if j < k - 1 {
      InodesGrow(ops, j, k - 1);
    }
  }

  /** At the end of a sound run every object is where its effect says, and nothing else is there but the
      directories above. */
  lemma {:induction false} RunPlaces(ops: seq<Op>, agree: bool)
    requires Sound(ops) && (agree ==> AttrsAgree(ops))
    ensures Placed(ops, PerformAll(Empty, ops).fs, agree)
  {
    hide Perform, Placed, Sound, AttrsAgree;
    if ops == [] {
      NothingPlaced(agree);
    } else {
      var n := |ops| - 1;
      var before := ops[..n];
      assert before + [ops[n]] == ops;
      SoundPrefix(before, ops[n]);
      RunPlaces(before, agree);
      StepPlaces(before, ops[n], PerformAll(Empty, before), agree);
    }
  }

  lemma {:induction false} NothingPlaced(agree: bool)
    ensures Placed([], PerformAll(Empty, []).fs, agree)
  {}

  lemma {:induction false} SoundPrefix(before: seq<Op>, op: Op)
    requires Sound(before + [op])
    ensures Sound(before) && op.path !in PathsOf(before) && (AttrsAgree(before + [op]) ==> AttrsAgree(before))
    ensures Ready(PerformAll(Empty, before).fs, op)
  {
    hide Ready, Unobstructed, LinksToFiles, FsOk;
    var ops := before + [op];
    assert forall i :: 0 <= i < |before| ==> ops[i] == before[i];
    RunSplits(Empty, before, [op]);
    SplitOps(before, [op]);
    assert [op][0] == op && [op][0].path in PathsOf([op]);
    assert forall j :: 0 <= j < |before| && before[j].PutLink? ==> ops[j].PutLink?;
  }

  lemma {:induction false} StepPlaces(before: seq<Op>, op: Op, w: World, agree: bool)
    requires Placed(before, w.fs, agree) && Sound(before + [op]) && op.path !in PathsOf(before) && Ready(w.fs, op)
    requires agree ==> AttrsAgree(before + [op])
    ensures Placed(before + [op], Perform(w, op).fs, agree)
  {
    hide Perform, PlacedAt, FsOk, Runnable, Inodes, LinksDirect, AttrsAgree, NamesExplained, Ready, Base;
    var ops, fs := before + [op], Perform(w, op).fs;
    assert ops[..|before|] == before;
    PerformNames(w, op);
    StepCounts(before, op, w);
    StepExplains(before, op, w);
    forall j | 0 <= j < |ops| ensures PlacedAt(ops, j, fs, agree) {
      if j < |before| {
        assert ops[..j] == before[..j] && ops[j] == before[j];
        assert PlacedAt(before, j, w.fs, agree);
        StepKeeps(before, op, w, agree, j);
      } else {
        StepPlacesNew(before, op, w, agree);
      }
    }
  }

  lemma {:induction false} StepExplains(before: seq<Op>, op: Op, w: World)
    requires NamesExplained(before, w.fs) && FsOk(w.fs) && Ready(w.fs, op) && op.path !in PathsOf(before)
    ensures NamesExplained(before + [op], Perform(w, op).fs)
  {
    hide Perform, Ancestor, FsOk, Blocked, OwnNode;
    PerformNames(w, op);
    var ops, fs := before + [op], Perform(w, op).fs;
    assert ops[|before|] == op && forall k :: 0 <= k < |before| ==> ops[k] == before[k];
    forall p ensures Above(ops, p) <==> Above(before, p) || (Touches(op) && Ancestor(p, op.path)) {
      AboveSnoc(before, op, p);
    }
    forall p ensures Tried(ops, p) <==> Tried(before, p) || (Touches(op) && op.path == p) {
      TriedSnoc(before, op, p);
    }
  }

  lemma {:induction false} AboveSnoc(before: seq<Op>, op: Op, p: Path)
    ensures Above(before + [op], p) <==> Above(before, p) || (Touches(op) && Ancestor(p, op.path))
  {
    hide Touches, Ancestor;
    var ops := before + [op];
    assert ops[|before|] == op && forall k :: 0 <= k < |before| ==> ops[k] == before[k];
  }

  lemma {:induction false} TriedSnoc(before: seq<Op>, op: Op, p: Path)
    ensures Tried(before + [op], p) <==> Tried(before, p) || (Touches(op) && op.path == p)
  {
    hide Touches;
    var ops := before + [op];
    assert ops[|before|] == op && forall k :: 0 <= k < |before| ==> ops[k] == before[k];
  }

  lemma {:induction false} StepCounts(before: seq<Op>, op: Op, w: World)
    requires |w.fs.inodes| == Inodes(before)
    ensures |Perform(w, op).fs.inodes| == Inodes(before + [op])
  {
    hide WithParents;
    ParentsMade(w.fs, op.path);
    assert (before + [op])[..|before|] == before;
  }

  /** Which files a hard link can find. */
  lemma {:induction false} TargetIsFile(before: seq<Op>, op: Op, fs: FS, agree: bool)
    requires Placed(before, fs, agree) && Sound(before + [op]) && op.PutLink?
    ensures IsFile(fs, op.target) <==> FileIn(before, op.target)
  {
    hide FsOk, Inodes, Ancestor;
    var ops := before + [op];
    assert ops[|before|] == op && forall i :: 0 <= i < |before| ==> ops[i] == before[i];
    if FileIn(before, op.target) {
      var k :| 0 <= k < |before| && before[k].path == op.target && KeepsFile(before[k]);
      assert PlacedAt(before, k, fs, agree);
    }
    if IsFile(fs, op.target) {
      assert Tried(before, op.target);
      var k :| 0 <= k < |before| && Touches(before[k]) && before[k].path == op.target;
      assert PlacedAt(before, k, fs, agree);
      assert ops[k] == before[k] && (op.target == ops[k].path && op.target !in OthersOf(ops));
      assert KeepsFile(before[k]);
    }
  }

  lemma {:induction false} StepPlacesNew(before: seq<Op>, op: Op, w: World, agree: bool)
    requires Placed(before, w.fs, agree) && Sound(before + [op]) && op.path !in PathsOf(before) && Ready(w.fs, op)
    ensures PlacedAt(before + [op], |before|, Perform(w, op).fs, agree)
  {
    hide Placed, Sound, FileIn, WithParents, Blocked, FsOk;
    assert (before + [op])[..|before|] == before;
    PlacedParts(before, w.fs, agree);
    ParentsMade(w.fs, op.path);
    if op.PutLink? {
      TargetIsFile(before, op, w.fs, agree);
    }
  }

  lemma {:induction false} PlacedParts(ops: seq<Op>, fs: FS, agree: bool)
    requires Placed(ops, fs, agree)
    ensures FsOk(fs) && |fs.inodes| == Inodes(ops)
  {}

  /** An effect leaves everything alone that is there already. */
  lemma {:induction false} StepKeeps(before: seq<Op>, op: Op, w: World, agree: bool, j: nat)
    requires Placed(before, w.fs, agree) && Sound(before + [op]) && op.path !in PathsOf(before) && Ready(w.fs, op)
    requires agree ==> AttrsAgree(before + [op])
    requires j < |before|
    ensures PlacedAt(before + [op], j, Perform(w, op).fs, agree)
  {
    hide Sound, FsOk, WithParents, Blocked, Ready, NamesExplained, Inodes;
    if op.PutLink? && IsFile(w.fs, op.target) {
      LinkKeeps(before, op, w, agree, j);
    } else {
      var ops := before + [op];
      assert ops[..j] == before[..j] && ops[j] == before[j];
      assert before[j].path in PathsOf(before);
      assert PlacedAt(before, j, w.fs, agree);
      ParentsMade(w.fs, op.path);
      NotAbove(before, op, j);
      if before[j].PutLink? && FileIn(before[..j], before[j].target) {
        var k :| 0 <= k < j && before[..j][k].path == before[j].target && KeepsFile(before[..j][k]);
        assert before[k].path in PathsOf(before);
      }
    }
  }

  lemma {:induction false} LinkKeeps(before: seq<Op>, op: Op, w: World, agree: bool, j: nat)
    requires Placed(before, w.fs, agree) && Sound(before + [op]) && op.path !in PathsOf(before) && Ready(w.fs, op)
    requires (agree ==> AttrsAgree(before + [op])) && op.PutLink? && IsFile(w.fs, op.target)
    requires j < |before|
    ensures PlacedAt(before + [op], j, Perform(w, op).fs, agree)
  {
    hide Sound, FsOk, WithParents, Blocked, Ready, NamesExplained;
    var ops := before + [op];
    assert ops[..j] == before[..j] && ops[j] == before[j];
    assert before[j].path in PathsOf(before);
    assert PlacedAt(before, j, w.fs, agree);
    ParentsMade(w.fs, op.path);
    NotAbove(before, op, j);
    TargetIsFile(before, op, w.fs, agree);
    var k :| 0 <= k < |before| && before[k].path == op.target && KeepsFile(before[k]);
    assert PlacedAt(before, k, w.fs, agree);
    assert ops[k] == before[k] && ops[|before|] == op;
    if j != k && KeepsFile(before[j]) {
      if j < k { InodesGrow(before, j, k); } else { InodesGrow(before, k, j); }
    }
  }

  lemma {:induction false} NotAbove(before: seq<Op>, op: Op, j: nat)
    requires Sound(before + [op]) && j < |before|
    ensures Touches(before[j]) && Touches(op) && !MakesDir(before[j]) ==> !Ancestor(before[j].path, op.path)
  {
    hide Ancestor;
    var ops := before + [op];
    assert ops[j] == before[j] && ops[|before|] == op;
  }

  // ---- counts

  function FileErrors(ops: seq<Op>): nat {
    if ops == [] then 0
    else
      var op := ops[|ops| - 1];
      FileErrors(ops[..|ops| - 1]) + if op.EmptyFile? || op.DropFile? then 1 else 0
  }

  /** Hard links that are excluded, or whose file is not there. */
  function LinkErrors(ops: seq<Op>): nat {
    if ops == [] then 0
    else
      var n := |ops| - 1;
      LinkErrors(ops[..n]) + if ops[n].RefuseLink? || (ops[n].PutLink? && !FileIn(ops[..n], ops[n].target))
        then 1 else 0
  }

  const Files := (op: Op) => if op.PutFile? then 1 as nat else 0
  const AllLinks := (op: Op) => if op.PutLink? || op.RefuseLink? then 1 as nat else 0
  const Others := (op: Op) => if op.PutOther? then 1 as nat else 0
  const OthersRefused := (op: Op) => if op.RefuseOther? then 1 as nat else 0

  /** Every lost file is counted once, and every hard link that lost its file once; what is restored is counted
      once too, by its kind, and nothing else is. */
  lemma {:induction false} RunCounts(ops: seq<Op>)
    requires Sound(ops)
    ensures PerformAll(Empty, ops).stats.fileErrors == FileErrors(ops)
    ensures PerformAll(Empty, ops).stats.linkErrors == LinkErrors(ops)
    ensures PerformAll(Empty, ops).stats.files == SumBy(Files, ops)
    ensures PerformAll(Empty, ops).stats.links + LinkErrors(ops) == SumBy(AllLinks, ops)
    ensures PerformAll(Empty, ops).stats.others == SumBy(Others, ops)
    ensures PerformAll(Empty, ops).stats.otherErrors == SumBy(OthersRefused, ops)
    ensures PerformAll(Empty, ops).stats.errors == 0
  {
    hide Placed, Sound, FileIn, WithParents, SetAttrs, IsFile;
    if ops != [] {
      var n := |ops| - 1;
      assert ops[..n] + [ops[n]] == ops;
      SoundPrefix(ops[..n], ops[n]);
      RunCounts(ops[..n]);
      RunPlaces(ops[..n], false);
      if ops[n].PutLink? {
        TargetIsFile(ops[..n], ops[n], PerformAll(Empty, ops[..n]).fs, false);
        ParentsMade(PerformAll(Empty, ops[..n]).fs, ops[n].path);
      }
    }
  }
}
