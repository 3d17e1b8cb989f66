/** A directory tree, saved and restored: node by node. */
module WholeTree {
  import opened Bytes
  import opened ArchiveItems
  import opened Records
  import opened Walk
  import opened Nodes
  import opened FileSystem
  import opened OperSave
  import opened OperRestore
  import opened Damage
  import opened Placement
  import opened SavedPuts
  import opened SaveRestore
  import opened RoundTrip

  /** The contents of a file: what could be read, and zeros up to its size. */
  predicate HasContents(content: bytes, node: Tree)
    requires node.FileTree?
  {
    |content| == node.size &&
    forall k :: 0 <= k < node.size ==> content[k] == if k < |node.data| then node.data[k] else 0
  }

  predicate SameContents(a: Tree, b: Tree)
    requires a.FileTree? && b.FileTree?
  {
    a.size == b.size &&
    forall k :: 0 <= k < a.size ==>
      (if k < |a.data| then a.data[k] else 0) == if k < |b.data| then b.data[k] else 0
  }

  /** Names of one inode. */
  predicate OneInode(a: Tree, b: Tree) {
    a.FileTree? && b.FileTree? && a.dev == b.dev && a.ino == b.ino
  }

  /** The tree did not change while it was walked: all names of an inode show the same, and an inode with two
      names has several links. */
  ghost predicate Steady(exclude: bytes -> bool, path: Path, t: Tree) {
    forall at, bt :: Admitted(exclude, path, t, at) && Admitted(exclude, path, t, bt) ==>
      var a, b := NodeAt(t, at), NodeAt(t, bt);
      OneInode(a, b) ==>
        a.rdev == b.rdev && a.nlink == b.nlink && a.attrs == b.attrs && SameContents(a, b) && (at != bt ==> a.nlink > 1)
  }

  /** Files with several links that have the same inode number and the same st_rdev are on one device. */
  ghost predicate KeysTell(exclude: bytes -> bool, path: Path, t: Tree) {
    forall at, bt :: Admitted(exclude, path, t, at) && Admitted(exclude, path, t, bt) ==>
      var a, b := NodeAt(t, at), NodeAt(t, bt);
      a.FileTree? && b.FileTree? && a.nlink > 1 && b.nlink > 1 && a.rdev == b.rdev && a.ino == b.ino ==>
        a.dev == b.dev
  }

  /** A node stands under this path, with its type, attributes and contents. */
  predicate Stands(fs: FS, p: Path, node: Tree) {
    && p in fs.names
    && (node.PlainTree? ==> fs.names[p] == OtherNode(node.objtype, node.attrs))
    && (node.DirTree? ==> fs.names[p] == OtherNode(DIR, node.attrs))
    && (node.FileTree? ==>
          IsFile(fs, p) && InodeOf(fs, p).attrs == node.attrs && HasContents(InodeOf(fs, p).content, node))
  }

  ghost predicate HasNode(exclude: bytes -> bool, path: Path, t: Tree, p: Path) {
    exists at :: Admitted(exclude, path, t, at) && PathAt(path, t, at) == p
  }

  ghost predicate HasBelow(exclude: bytes -> bool, path: Path, t: Tree, p: Path) {
    exists at :: Admitted(exclude, path, t, at) && Ancestor(p, PathAt(path, t, at))
  }

  /** The file system is the tree, less what was excluded: every node stands under its path, two names share an
      inode if and only if they did, and nothing else is there but the directories above. */
  ghost predicate IsTree(exclude: bytes -> bool, path: Path, t: Tree, fs: FS) {
    && (forall at :: Admitted(exclude, path, t, at) ==> Stands(fs, PathAt(path, t, at), NodeAt(t, at)))
    && (forall at, bt :: Admitted(exclude, path, t, at) && Admitted(exclude, path, t, bt) &&
                         NodeAt(t, at).FileTree? && NodeAt(t, bt).FileTree? ==>
          var p, q := PathAt(path, t, at), PathAt(path, t, bt);
          p in fs.names && q in fs.names && (fs.names[p] == fs.names[q] <==> OneInode(NodeAt(t, at), NodeAt(t, bt))))
    && (forall p :: p in fs.names && !HasNode(exclude, path, t, p) ==>
          (p == ROOT || HasBelow(exclude, path, t, p)) && fs.names[p] == OtherNode(DIR, []))
    && (forall p :: p == ROOT || HasBelow(exclude, path, t, p) ==> p in fs.names)
  }

  // ---- nodes and visits

  lemma {:induction false} ShownContents(v: Visit, node: Tree)
    requires Shows(v, node) && node.FileTree?
    ensures |ContentOf(v)| == node.size
    ensures forall k :: 0 <= k < node.size ==> ContentOf(v)[k] == if k < |node.data| then node.data[k] else 0
  {}

  lemma {:induction false} SteadyIsSnapshot(exclude: bytes -> bool, path: Path, t: Tree)
    requires TreeOk(t) && Steady(exclude, path, t)
    ensures Snapshot(Visits(exclude, path, t))
  {
    hide Visits, TreeOk, Admitted, NodeAt, PathAt, ContentOf;
    var vs := Visits(exclude, path, t);
    WalkDistinct(exclude, path, t);
    forall i, j | 0 <= i < |vs| && 0 <= j < |vs| && SameInode(vs[i], vs[j])
      ensures vs[i].rdev == vs[j].rdev && vs[i].nlink == vs[j].nlink && vs[i].attrs == vs[j].attrs
      ensures ContentOf(vs[i]) == ContentOf(vs[j]) && (i != j ==> vs[i].nlink > 1)
    {
      var at := VisitHasNode(exclude, path, t, i);
      var bt := VisitHasNode(exclude, path, t, j);
      assert OneInode(NodeAt(t, at), NodeAt(t, bt));
      ShownContents(vs[i], NodeAt(t, at));
      ShownContents(vs[j], NodeAt(t, bt));
    }
  }

  lemma {:induction false} SnapshotIsSteady(exclude: bytes -> bool, path: Path, t: Tree)
    requires TreeOk(t) && Snapshot(Visits(exclude, path, t))
    ensures Steady(exclude, path, t)
  {
    hide Visits, TreeOk, Admitted, NodeAt, PathAt, ContentOf;
    var vs := Visits(exclude, path, t);
    forall at, bt | Admitted(exclude, path, t, at) && Admitted(exclude, path, t, bt)
      ensures var a, b := NodeAt(t, at), NodeAt(t, bt);
              OneInode(a, b) ==>
                a.rdev == b.rdev && a.nlink == b.nlink && a.attrs == b.attrs && SameContents(a, b) &&
                (at != bt ==> a.nlink > 1)
    {
      if OneInode(NodeAt(t, at), NodeAt(t, bt)) {
        var i := NodeVisited(exclude, path, t, at);
        var j := NodeVisited(exclude, path, t, bt);
        if at != bt {
          PathsApart(exclude, path, t, at, bt);
        }
        assert SameInode(vs[i], vs[j]);
        ShownContents(vs[i], NodeAt(t, at));
        ShownContents(vs[j], NodeAt(t, bt));
      }
    }
  }

  lemma {:induction false} KeysTellIff(exclude: bytes -> bool, path: Path, t: Tree)
    ensures KeysTell(exclude, path, t) <==> KeysOk(Visits(exclude, path, t))
  {
    hide Visits, Admitted, NodeAt, PathAt;
    var vs := Visits(exclude, path, t);
    if KeysTell(exclude, path, t) {
      forall i, j | 0 <= i < |vs| && 0 <= j < |vs| && SeveralLinks(vs[j]) && HasKey(vs[i], vs[j].rdev, vs[j].ino)
        ensures vs[i].dev == vs[j].dev
      {
        var at := VisitHasNode(exclude, path, t, i);
        var bt := VisitHasNode(exclude, path, t, j);
      }
    }
    if KeysOk(vs) {
      forall at, bt | Admitted(exclude, path, t, at) && Admitted(exclude, path, t, bt)
        ensures var a, b := NodeAt(t, at), NodeAt(t, bt);
                a.FileTree? && b.FileTree? && a.nlink > 1 && b.nlink > 1 && a.rdev == b.rdev && a.ino == b.ino ==>
                  a.dev == b.dev
      {
        var i := NodeVisited(exclude, path, t, at);
        var j := NodeVisited(exclude, path, t, bt);
        assert vs[j].FileVisit? && HasKey(vs[i], vs[j].rdev, vs[j].ino) ==> vs[i].FileVisit?;
      }
    }
  }

  lemma {:induction false} FileStands(vs: seq<Visit>, fs: FS, k: nat)
    requires k < |vs| && vs[k].FileVisit? && Faithful(vs, NoLoss, fs)
    ensures vs[k].path in fs.names && IsFile(fs, vs[k].path)
    ensures InodeOf(fs, vs[k].path) == Inode(ContentOf(vs[k]), vs[k].attrs)
  {
    hide Survives, NamesFaithful, FaithfulSharing, ContentOf;
    AllPresent(vs, k);
    assert ObjectFaithful(vs, NoLoss, fs, k);
  }

  lemma {:induction false} PlainStands(vs: seq<Visit>, fs: FS, k: nat)
    requires k < |vs| && vs[k].PlainVisit? && Faithful(vs, NoLoss, fs)
    ensures vs[k].path in fs.names && fs.names[vs[k].path] == OtherNode(vs[k].objtype, vs[k].attrs)
  {
    hide Survives, NamesFaithful, FaithfulSharing;
    AllPresent(vs, k);
    assert ObjectFaithful(vs, NoLoss, fs, k);
  }

  lemma {:induction false} NodeStands(exclude: bytes -> bool, path: Path, t: Tree, fs: FS, at: seq<nat>)
    requires Faithful(Visits(exclude, path, t), NoLoss, fs) && Admitted(exclude, path, t, at)
    ensures Stands(fs, PathAt(path, t, at), NodeAt(t, at))
  {
    hide Visits, Faithful, Admitted, PathAt, NodeAt, ContentOf;
    var vs := Visits(exclude, path, t);
    var k := NodeVisited(exclude, path, t, at);
    if vs[k].FileVisit? {
      FileStands(vs, fs, k);
      ShownContents(vs[k], NodeAt(t, at));
    } else {
      PlainStands(vs, fs, k);
    }
  }

  /** Which names there are, told by visits and by nodes. */
  lemma {:induction false} NamesByNode(exclude: bytes -> bool, path: Path, t: Tree, p: Path)
    ensures var vs := Visits(exclude, path, t);
            && (HasNode(exclude, path, t, p) <==> SurvivesAt(vs, NoLoss, p))
            && (p == ROOT || HasBelow(exclude, path, t, p) <==> Implied(vs, NoLoss, p))
  {
    hide Visits, Admitted, PathAt, NodeAt, Survives, Ancestor, Shows;
    var vs := Visits(exclude, path, t);
    if HasNode(exclude, path, t, p) {
      var at :| Admitted(exclude, path, t, at) && PathAt(path, t, at) == p;
      var k := NodeVisited(exclude, path, t, at);
      AllPresent(vs, k);
    }
    if SurvivesAt(vs, NoLoss, p) {
      var k :| 0 <= k < |vs| && vs[k].path == p && Survives(vs, NoLoss, k);
      var at := VisitHasNode(exclude, path, t, k);
    }
    if HasBelow(exclude, path, t, p) {
      var at :| Admitted(exclude, path, t, at) && Ancestor(p, PathAt(path, t, at));
      var k := NodeVisited(exclude, path, t, at);
      assert Reached(NoLoss, vs[k].path);
    }
    if p != ROOT && Implied(vs, NoLoss, p) {
      var k :| 0 <= k < |vs| && Reached(NoLoss, vs[k].path) && Ancestor(p, vs[k].path);
      var at := VisitHasNode(exclude, path, t, k);
    }
  }

  lemma {:induction false} FaithfulShares(vs: seq<Visit>, fs: FS, i: nat, j: nat)
    requires Faithful(vs, NoLoss, fs) && i < |vs| && j < |vs| && vs[i].FileVisit? && vs[j].FileVisit?
    ensures vs[i].path in fs.names && vs[j].path in fs.names
    ensures fs.names[vs[i].path] == fs.names[vs[j].path] <==> SameInode(vs[i], vs[j])
  {
    hide NamesFaithful, Survives, ContentOf;
    AllPresent(vs, i);
    AllPresent(vs, j);
    assert ObjectFaithful(vs, NoLoss, fs, i) && ObjectFaithful(vs, NoLoss, fs, j);
  }

  lemma {:induction false} FaithfulIsTree(exclude: bytes -> bool, path: Path, t: Tree, fs: FS)
    requires Faithful(Visits(exclude, path, t), NoLoss, fs)
    ensures IsTree(exclude, path, t, fs)
  {
    hide Visits, Faithful, Admitted, PathAt, NodeAt, Stands, HasNode, HasBelow, SurvivesAt, Implied;
    var vs := Visits(exclude, path, t);
    forall at | Admitted(exclude, path, t, at) ensures Stands(fs, PathAt(path, t, at), NodeAt(t, at)) {
      NodeStands(exclude, path, t, fs, at);
    }
    forall at, bt | Admitted(exclude, path, t, at) && Admitted(exclude, path, t, bt) &&
                    NodeAt(t, at).FileTree? && NodeAt(t, bt).FileTree?
      ensures var p, q := PathAt(path, t, at), PathAt(path, t, bt);
              p in fs.names && q in fs.names && (fs.names[p] == fs.names[q] <==> OneInode(NodeAt(t, at), NodeAt(t, bt)))
    {
      var i := NodeVisited(exclude, path, t, at);
      var j := NodeVisited(exclude, path, t, bt);
      FaithfulShares(vs, fs, i, j);
    }
    forall p
      ensures p in fs.names && !HasNode(exclude, path, t, p) ==>
                (p == ROOT || HasBelow(exclude, path, t, p)) && fs.names[p] == OtherNode(DIR, [])
      ensures p == ROOT || HasBelow(exclude, path, t, p) ==> p in fs.names
    {
      NamesByNode(exclude, path, t, p);
      NamesAre(vs, fs, p);
    }
  }

  lemma {:induction false} NamesAre(vs: seq<Visit>, fs: FS, p: Path)
    requires Faithful(vs, NoLoss, fs)
    ensures p in fs.names <==> SurvivesAt(vs, NoLoss, p) || Implied(vs, NoLoss, p)
    ensures p in fs.names && !SurvivesAt(vs, NoLoss, p) ==> fs.names[p] == OtherNode(DIR, [])
  {
    hide SurvivesAt, Implied, FaithfulSharing, ObjectFaithful;
  }

  lemma {:induction false} TreeIsFaithful(exclude: bytes -> bool, path: Path, t: Tree, fs: FS)
    requires IsTree(exclude, path, t, fs)
    ensures Faithful(Visits(exclude, path, t), NoLoss, fs)
  {
    hide Visits, Admitted, PathAt, NodeAt, HasNode, HasBelow, SurvivesAt, Implied, Survives, ObjectFaithful, Stands;
    hide ContentOf, Shows;
    var vs := Visits(exclude, path, t);
    forall p
      ensures p in fs.names <==> SurvivesAt(vs, NoLoss, p) || Implied(vs, NoLoss, p)
      ensures p in fs.names && !SurvivesAt(vs, NoLoss, p) ==> fs.names[p] == OtherNode(DIR, [])
    {
      NamesByNode(exclude, path, t, p);
      NodeIsThere(exclude, path, t, fs, p);
    }
    forall i, j | 0 <= i < |vs| && 0 <= j < |vs| && vs[i].FileVisit? && vs[j].FileVisit? &&
                  vs[i].path in fs.names && vs[j].path in fs.names
      ensures fs.names[vs[i].path] == fs.names[vs[j].path] <==> SameInode(vs[i], vs[j])
    {
      var at := VisitHasNode(exclude, path, t, i);
      var bt := VisitHasNode(exclude, path, t, j);
      SharesByNode(vs[i], NodeAt(t, at), vs[j], NodeAt(t, bt));
    }
    forall i | 0 <= i < |vs| ensures ObjectFaithful(vs, NoLoss, fs, i) {
      var at := VisitHasNode(exclude, path, t, i);
      StandsIsFaithful(vs, fs, i, NodeAt(t, at));
    }
  }

  lemma {:induction false} SharesByNode(v: Visit, a: Tree, w: Visit, b: Tree)
    requires Shows(v, a) && Shows(w, b) && v.FileVisit? && w.FileVisit?
    ensures a.FileTree? && b.FileTree? && (SameInode(v, w) <==> OneInode(a, b))
  {}

  lemma {:induction false} NodeIsThere(exclude: bytes -> bool, path: Path, t: Tree, fs: FS, p: Path)
    requires IsTree(exclude, path, t, fs)
    ensures HasNode(exclude, path, t, p) ==> p in fs.names
  {
    hide Admitted, PathAt, NodeAt, HasBelow;
    if HasNode(exclude, path, t, p) {
      var at :| Admitted(exclude, path, t, at) && PathAt(path, t, at) == p;
      assert Stands(fs, PathAt(path, t, at), NodeAt(t, at));
    }
  }

  lemma {:induction false} StandsIsFaithful(vs: seq<Visit>, fs: FS, i: nat, node: Tree)
    requires i < |vs| && Shows(vs[i], node) && Stands(fs, vs[i].path, node)
    ensures ObjectFaithful(vs, NoLoss, fs, i)
  {
    hide Survives, FirstLinkOf, ContentOf;
    if node.FileTree? {
      ShownContents(vs[i], node);
      assert InodeOf(fs, vs[i].path).content == ContentOf(vs[i]);
    }
  }

  /** Saving and restoring a directory tree is the identity if and only if no two devices have files with several
      links, the same inode number and the same st_rdev. */
  lemma {:induction false} SaveThenRestoreTree(c: Cfg, path: Path, t: Tree)
    requires CfgOk(c) && TreeOk(t) && t.DirTree?
    requires VisitsOk(Visits(c.exclude, path, t)) && Steady(c.exclude, path, t)
    ensures var stream := Stream(c, path, t) + [Other(DATF, c.fsid)];
            var r := ReadObjects(EnvOf(c, NoneExcluded), Ex(stream, Empty.fs, NoStats));
            && r.Continue? && (IsTree(c.exclude, path, t, r.ex.fs) <==> KeysTell(c.exclude, path, t))
  {
    hide ReadObjects, Faithful, KeysOk, Snapshot, VisitsOk, TreeOk, TreeShaped, Visits, IsTree, KeysTell, Steady;
    WalkDistinct(c.exclude, path, t);
    WalkShaped(c.exclude, path, t);
    SteadyIsSnapshot(c.exclude, path, t);
    KeysTellIff(c.exclude, path, t);
    SaveThenRestore(c, Visits(c.exclude, path, t));
    TreeIffFaithful(c.exclude, path, t, RestoreAll(c, Visits(c.exclude, path, t)).ex.fs);
  }

  lemma {:induction false} TreeIffFaithful(exclude: bytes -> bool, path: Path, t: Tree, fs: FS)
    ensures IsTree(exclude, path, t, fs) <==> Faithful(Visits(exclude, path, t), NoLoss, fs)
  {
    hide IsTree, Faithful, Visits;
    if IsTree(exclude, path, t, fs) {
      TreeIsFaithful(exclude, path, t, fs);
    }
    if Faithful(Visits(exclude, path, t), NoLoss, fs) {
      FaithfulIsTree(exclude, path, t, fs);
    }
  }

  // ---- two inodes taken for one

  /** Two files with several links, on different devices, with the same inode number. */
  const ClashTree := DirTree(0, [], [
    DirEntry([97], FileTree(1, 0, 5, 2, 1, false, [], [1])),
    DirEntry([98], FileTree(2, 0, 5, 2, 1, false, [], [2]))])

  const ClashVisits: seq<Visit> := [
    PlainVisit(ROOT, DIR, 0, []),
    FileVisit([SLASH, 97], 1, 0, 5, 2, 1, false, [], [1]),
    FileVisit([SLASH, 98], 2, 0, 5, 2, 1, false, [], [2])]

  lemma {:induction false} ClashWalk()
    ensures TreeOk(ClashTree) && Visits(NoneExcluded, ROOT, ClashTree) == ClashVisits
  {
    var a, b := ClashTree.entries[0], ClashTree.entries[1];
    assert Join(ROOT, a.name) == [SLASH, 97] && Join(ROOT, b.name) == [SLASH, 98];
    assert VisitsOfEntry(NoneExcluded, ROOT, a) == [ClashVisits[1]];
    assert VisitsOfEntry(NoneExcluded, ROOT, b) == [ClashVisits[2]];
    assert EntryVisits(NoneExcluded, ROOT, ClashTree, 0) == [];
    assert EntryVisits(NoneExcluded, ROOT, ClashTree, 1) == [ClashVisits[1]];
    assert EntryVisits(NoneExcluded, ROOT, ClashTree, 2) == [ClashVisits[1], ClashVisits[2]];
  }

  lemma {:induction false} ClashVisitsOk()
    ensures VisitsOk(ClashVisits) && Snapshot(ClashVisits) && !KeysOk(ClashVisits)
    ensures LeaderOf(ClashVisits, 2) == 1 && ContentOf(ClashVisits[1]) == [1] && ContentOf(ClashVisits[2]) == [2]
  {
    var vs := ClashVisits;
    assert HasKey(vs[1], vs[2].rdev, vs[2].ino);
    assert !HasKey(vs[0], vs[2].rdev, vs[2].ino);
  }

  /** Without that condition a file can come back with the contents of another: the tree is saved without
      any error, and it is not the tree that is restored. */
  lemma {:induction false} KeysCanClash(c: Cfg)
    requires CfgOk(c) && c.exclude == NoneExcluded
    ensures VisitsOk(Visits(c.exclude, ROOT, ClashTree))
    ensures var stream := Stream(c, ROOT, ClashTree) + [Other(DATF, c.fsid)];
            var r := ReadObjects(EnvOf(c, NoneExcluded), Ex(stream, Empty.fs, NoStats));
            && r.Continue? && !IsTree(c.exclude, ROOT, ClashTree, r.ex.fs)
            && IsFile(r.ex.fs, [SLASH, 98]) && InodeOf(r.ex.fs, [SLASH, 98]).content == [1]
  {
    hide ReadObjects, IsTree, KeysTell, Steady, KeysOk, Snapshot, VisitsOk, TreeOk, TreeShaped, Visits, LeaderOf;
    hide ContentOf, Emit;
    ClashWalk();
    ClashVisitsOk();
    WalkDistinct(c.exclude, ROOT, ClashTree);
    WalkShaped(c.exclude, ROOT, ClashTree);
    SnapshotIsSteady(c.exclude, ROOT, ClashTree);
    KeysTellIff(c.exclude, ROOT, ClashTree);
    SaveThenRestoreTree(c, ROOT, ClashTree);
    UndamagedRestored(c, ClashVisits);
    AllPresent(ClashVisits, 2);
    assert ObjectRestored(ClashVisits, NoLoss, RestoreAll(c, ClashVisits).ex.fs, KeyAttrs(ClashVisits), 2);
  }
}
