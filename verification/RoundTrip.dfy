/** What restoring a saved tree gives back: exactly what was saved, as far as it has not been damaged. */
module RoundTrip {
  import opened Bytes
  import opened ArchiveItems
  import opened Records
  import opened Walk
  import opened FileSystem
  import opened OperSave
  import opened OperRestore
  import opened Damage
  import opened Placement
  import opened SavedPuts
  import opened SaveRestore

  // ---- effects and visits

  lemma {:induction false} OnceInDistinct(ops: seq<Op>, x: Op)
    requires DistinctOps(ops)
    ensures multiset(ops)[x] <= 1
  {
    if ops != [] {
      var n := |ops| - 1;
      assert ops == ops[..n] + [ops[n]];
      OnceInDistinct(ops[..n], x);
      if ops[n] == x {
        assert x !in ops[..n];
      }
    }
  }

  lemma {:induction false} DistinctByContents(a: seq<Op>, b: seq<Op>)
    requires multiset(a) == multiset(b) && DistinctOps(b)
    ensures DistinctOps(a)
  {
    forall i, j | 0 <= i < j < |a| ensures a[i].path != a[j].path {
      var p := PlaceOf(a, b, i);
      var q := PlaceOf(a, b, j);
      OnceInDistinct(b, a[i]);
      TwiceIn(a, i, j);
      assert p != q;
    }
  }

  lemma {:induction false} TwiceIn(a: seq<Op>, i: nat, j: nat)
    requires i < j < |a|
    ensures a[i] == a[j] ==> multiset(a)[a[i]] >= 2
  {
    assert a == a[..j] + a[j..] && a[i] in a[..j] && a[j] in a[j..];
    assert multiset(a)[a[i]] == multiset(a[..j])[a[i]] + multiset(a[j..])[a[i]];
  }

  lemma {:induction false} PlaceOf(a: seq<Op>, b: seq<Op>, i: nat) returns (k: nat)
    requires multiset(a) == multiset(b) && i < |a|
    ensures k < |b| && b[k] == a[i]
  {
    assert a[i] in multiset(a);
    assert a[i] in b;
    k :| 0 <= k < |b| && b[k] == a[i];
  }

  /** The first visit of the inode, as the saving side tells inodes apart. */
  function LeaderOf(vs: seq<Visit>, i: nat): (l: nat)
    requires i < |vs|
    ensures l <= i
  {
    if SeveralLinks(vs[i]) then FirstKey(vs, vs[i].rdev, vs[i].ino) else i
  }

  lemma {:induction false} LeaderFacts(vs: seq<Visit>, i: nat)
    requires i < |vs|
    ensures var l := LeaderOf(vs, i);
            && LeaderOf(vs, l) == l && (vs[i].FileVisit? ==> vs[l].FileVisit?)
            && (l != i ==> SeveralLinks(vs[i]) && HasKey(vs[l], vs[i].rdev, vs[i].ino))
            && VisitPuts(vs)[i] ==
               if vs[i].PlainVisit? then PutOther(vs[i].path, vs[i].objtype, vs[i].attrs)
               else if l == i then PutFile(vs[i].path, ContentOf(vs[i]), vs[i].attrs)
               else PutLink(vs[i].path, vs[l].path, vs[i].attrs)
  {
    if SeveralLinks(vs[i]) {
      var f := FirstKey(vs[..i], vs[i].rdev, vs[i].ino);
      assert forall j :: 0 <= j < i ==> vs[..i][j] == vs[j];
      assert f < i ==> HasKey(vs[f], vs[i].rdev, vs[i].ino);
    }
  }

  /** A saved walk with its effects, what has become of them, and the effects of restoring. */
  datatype Saving = Saving(vs: seq<Visit>, puts: seq<Op>, fates: seq<Fate>, excluded: Path -> bool, ops: seq<Op>)

  predicate Setting(g: Saving) {
    && DistinctPaths(g.vs) && TreeShaped(g.vs) && multiset(g.puts) == multiset(VisitPuts(g.vs))
    && DistinctOps(g.puts) && TargetsFirst(g.puts) && HarmedRun(g.excluded, g.ops, g.puts, g.fates)
  }

  function LossIn(g: Saving): Loss
    requires Setting(g)
  {
    LossBy(g.excluded, g.puts, g.fates)
  }

  /** The effect that restoring visit i has. */
  lemma {:induction false} OpOfVisit(g: Saving, i: nat) returns (k: nat)
    requires Setting(g) && i < |g.vs|
    ensures k < |g.ops| && g.puts[k] == VisitPuts(g.vs)[i] && g.puts[k].path == g.ops[k].path == g.vs[i].path
    ensures var fate := FateOf(LossIn(g), g.vs[i].path);
            g.ops[k] == Harmed(g.excluded, g.puts[k], fate) && FateFits(g.puts[k], fate)
    ensures Touches(g.ops[k]) <==> Reached(LossIn(g), g.vs[i].path)
  {
    k := PlaceOf(VisitPuts(g.vs), g.puts, i);
    FateByPath(g.excluded, g.puts, g.fates, k);
  }

  /** The visit that an effect restores. */
  lemma {:induction false} VisitOfOp(g: Saving, k: nat) returns (i: nat)
    requires Setting(g) && k < |g.ops|
    ensures i < |g.vs| && g.puts[k] == VisitPuts(g.vs)[i] && g.ops[k].path == g.vs[i].path
    ensures var fate := FateOf(LossIn(g), g.vs[i].path);
            g.ops[k] == Harmed(g.excluded, g.puts[k], fate) && FateFits(g.puts[k], fate)
    ensures Touches(g.ops[k]) <==> Reached(LossIn(g), g.vs[i].path)
  {
    i := PlaceOf(g.puts, VisitPuts(g.vs), k);
    FateByPath(g.excluded, g.puts, g.fates, k);
  }

  lemma {:induction false} RootIsDir(path: Path)
    ensures !Blocked(Empty.fs, path)
  {}

  lemma {:induction false} EffectReady(g: Saving, k: nat)
    requires Setting(g) && k < |g.ops|
    ensures Ready(Empty.fs, g.ops[k])
  {
    hide LeaderOf, TargetsFirst, Blocked;
    RootIsDir(g.ops[k].path);
    var i := VisitOfOp(g, k);
    LeaderFacts(g.vs, i);
  }

  lemma {:induction false} EffectsUnobstructed(g: Saving)
    requires Setting(g)
    ensures Unobstructed(g.ops)
  {
    hide LeaderOf, TargetsFirst, Ancestor, HarmedRun;
    forall k, m | 0 <= k < |g.ops| && 0 <= m < |g.ops| && Touches(g.ops[k]) && Touches(g.ops[m]) && !MakesDir(g.ops[k])
      ensures !Ancestor(g.ops[k].path, g.ops[m].path)
    {
      var i := VisitOfOp(g, k);
      var j := VisitOfOp(g, m);
      LeaderFacts(g.vs, i);
    }
  }

  lemma {:induction false} LinksSound(g: Saving)
    requires Setting(g)
    ensures LinksDirect(g.ops) && LinksToFiles(Empty.fs, g.ops, OthersOf(g.ops)) && DistinctOps(g.ops)
  {
    hide TreeShaped;
    forall j | 0 <= j < |g.ops| && g.ops[j].PutLink?
      ensures g.ops[j].target !in OthersOf(g.ops)
      ensures forall k :: 0 <= k < |g.ops| && g.ops[k].PutLink? ==> g.ops[j].target != g.ops[k].path
    {
      assert g.ops[j] == g.puts[j];
      var m :| 0 <= m < j && g.puts[m].PutFile? && g.puts[m].path == g.ops[j].target;
      forall k | 0 <= k < |g.ops| && g.ops[k].path == g.ops[j].target
        ensures !g.ops[k].PutOther? && !g.ops[k].PutLink?
      {
        assert k == m;
      }
    }
  }

  lemma {:induction false} RunIsSound(g: Saving)
    requires Setting(g)
    ensures Sound(g.ops)
  {
    hide Setting, LinksToFiles, LinksDirect, DistinctOps, Unobstructed, Ready;
    LinksSound(g);
    EffectsUnobstructed(g);
    forall k | 0 <= k < |g.ops| ensures Ready(Empty.fs, g.ops[k]) {
      EffectReady(g, k);
    }
  }

  /** Visits that saving takes for one inode have the same attributes. */
  predicate KeyAttrs(vs: seq<Visit>) {
    forall i :: 0 <= i < |vs| ==> vs[i].attrs == vs[LeaderOf(vs, i)].attrs
  }

  lemma {:induction false} AttrsAgreed(g: Saving)
    requires Setting(g) && KeyAttrs(g.vs)
    ensures AttrsAgree(g.ops)
  {
    hide LeaderOf, TreeShaped;
    forall j, k | 0 <= j < |g.ops| && 0 <= k < |g.ops| && g.ops[j].PutLink? && g.ops[k].PutFile? &&
                  g.ops[j].target == g.ops[k].path
      ensures g.ops[j].attrs == g.ops[k].attrs
    {
      var a := VisitOfOp(g, j);
      var b := VisitOfOp(g, k);
      LeaderFacts(g.vs, a);
      LeaderFacts(g.vs, b);
      assert b == LeaderOf(g.vs, a);
    }
  }

  // ---- where the objects are

  lemma {:induction false} LeaderPlaced(g: Saving, fs: FS, agree: bool, i: nat) returns (k: nat)
    requires Setting(g) && Placed(g.ops, fs, agree)
    requires i < |g.vs| && g.vs[i].FileVisit? && LeaderOf(g.vs, i) == i
    ensures k < |g.ops| && g.puts[k].path == g.vs[i].path
    ensures var l, path := LossIn(g), g.vs[i].path;
            && (Lost(l, path) && Reached(l, path) ==> path !in fs.names)
            && (!Lost(l, path) ==>
                  && MakesInode(g.ops[k]) && HasInode(fs, path, Inodes(g.ops[..k]))
                  && InodeOf(fs, path).content == (if path in l.altered then [] else ContentOf(g.vs[i]))
                  && (agree && path !in l.altered ==> InodeOf(fs, path).attrs == g.vs[i].attrs))
  {
    hide LeaderOf, Inodes, Setting, NamesExplained;
    k := OpOfVisit(g, i);
    LeaderFacts(g.vs, i);
    assert PlacedAt(g.ops, k, fs, agree);
  }

  lemma {:induction false} FollowerPlaced(g: Saving, fs: FS, agree: bool, i: nat)
    requires Setting(g) && Placed(g.ops, fs, agree)
    requires i < |g.vs| && g.vs[i].FileVisit? && LeaderOf(g.vs, i) != i
    ensures var l, path, leader := LossIn(g), g.vs[i].path, g.vs[LeaderOf(g.vs, i)].path;
            && (!Lost(l, path) && !Lost(l, leader) ==>
                  path in fs.names && leader in fs.names && fs.names[path] == fs.names[leader])
            && (Reached(l, path) && (Lost(l, path) || Lost(l, leader)) ==> path !in fs.names)
  {
    hide LeaderOf, Inodes, Setting, NamesExplained;
    var leader := g.vs[LeaderOf(g.vs, i)].path;
    var k := OpOfVisit(g, i);
    LeaderFacts(g.vs, i);
    assert PlacedAt(g.ops, k, fs, agree);
    SettingParts(g);
    if Reached(LossIn(g), g.vs[i].path) {
      assert g.ops[k] == g.puts[k] == PutLink(g.vs[i].path, leader, g.vs[i].attrs);
      LinkFinds(g, i, k);
    }
  }

  /** The effect of the first link comes before the effects of the others. */
  lemma {:induction false} LeaderBefore(g: Saving, i: nat, k: nat) returns (m: nat)
    requires Setting(g) && i < |g.vs| && g.vs[i].FileVisit? && LeaderOf(g.vs, i) != i
    requires k < |g.ops| && g.puts[k] == VisitPuts(g.vs)[i]
    ensures var leader := g.vs[LeaderOf(g.vs, i)].path;
            && m < k && g.ops[m].path == leader && (KeepsFile(g.ops[m]) <==> !Lost(LossIn(g), leader))
  {
    hide LeaderOf, TreeShaped, LossIn;
    LeaderFacts(g.vs, i);
    var li := LeaderOf(g.vs, i);
    LeaderFacts(g.vs, li);
    m := OpOfVisit(g, li);
    assert FileBefore(g.puts, k, g.vs[li].path);
    var n :| 0 <= n < k && g.puts[n].PutFile? && g.puts[n].path == g.vs[li].path;
    assert n == m;
    SettingParts(g);
  }

  /** A hard link finds its file if and only if the file has not been lost. */
  lemma {:induction false} LinkFinds(g: Saving, i: nat, k: nat)
    requires Setting(g) && i < |g.vs| && g.vs[i].FileVisit? && LeaderOf(g.vs, i) != i
    requires k < |g.ops| && g.puts[k] == VisitPuts(g.vs)[i]
    ensures var leader := g.vs[LeaderOf(g.vs, i)].path;
            FileIn(g.ops[..k], leader) <==> !Lost(LossIn(g), leader)
  {
    hide Setting, LeaderOf, Lost, KeepsFile;
    var m := LeaderBefore(g, i, k);
    OpsAreDistinct(g);
    assert g.ops[..k][m] == g.ops[m];
    assert forall j :: 0 <= j < k ==> g.ops[..k][j] == g.ops[j];
  }

  lemma {:induction false} OpsAreDistinct(g: Saving)
    requires Setting(g)
    ensures DistinctOps(g.ops)
  {
    hide TreeShaped, TargetsFirst;
    assert forall k :: 0 <= k < |g.ops| ==> g.ops[k].path == g.puts[k].path;
  }

  lemma {:induction false} OtherPlaced(g: Saving, fs: FS, agree: bool, i: nat)
    requires Setting(g) && Placed(g.ops, fs, agree) && i < |g.vs| && g.vs[i].PlainVisit?
    ensures !Lost(LossIn(g), g.vs[i].path) ==>
              g.vs[i].path in fs.names && fs.names[g.vs[i].path] == OtherNode(g.vs[i].objtype, g.vs[i].attrs)
    ensures Reached(LossIn(g), g.vs[i].path) ==> !Lost(LossIn(g), g.vs[i].path)
  {
    hide LeaderOf, Inodes, Setting, NamesExplained;
    var k := OpOfVisit(g, i);
    LeaderFacts(g.vs, i);
    assert PlacedAt(g.ops, k, fs, agree);
  }

  // ---- the restored tree

  /** Object i of the tree and the first link to its inode are both there. */
  predicate Present(vs: seq<Visit>, l: Loss, i: nat)
    requires i < |vs|
  {
    !Lost(l, vs[i].path) && !Lost(l, vs[LeaderOf(vs, i)].path)
  }

  predicate PresentAt(vs: seq<Visit>, l: Loss, p: Path) {
    exists i :: 0 <= i < |vs| && vs[i].path == p && Present(vs, l, i)
  }

  /** The destination directory, or a directory that is made because something below it is restored, or at
      least tried. */
  predicate Implied(vs: seq<Visit>, l: Loss, p: Path) {
    p == ROOT || exists j :: 0 <= j < |vs| && Reached(l, vs[j].path) && Ancestor(p, vs[j].path)
  }

  /** Names come from objects that are there, or are directories above with default attributes. */
  ghost predicate NamesRestored(vs: seq<Visit>, l: Loss, fs: FS) {
    forall p :: (p in fs.names <==> PresentAt(vs, l, p) || Implied(vs, l, p))
             && (p in fs.names && !PresentAt(vs, l, p) ==> fs.names[p] == OtherNode(DIR, []))
  }

  /** Object i is restored, with its own type and attributes, and with the contents of the first link. */
  predicate ObjectRestored(vs: seq<Visit>, l: Loss, fs: FS, agree: bool, i: nat)
    requires i < |vs|
  {
    var v, leader := vs[i], vs[LeaderOf(vs, i)];
    Present(vs, l, i) ==>
      && v.path in fs.names
      && (v.PlainVisit? ==> fs.names[v.path] == OtherNode(v.objtype, v.attrs))
      && (v.FileVisit? ==>
            && IsFile(fs, v.path)
            && InodeOf(fs, v.path).content == (if leader.path in l.altered then [] else ContentOf(leader))
            && (agree && leader.path !in l.altered ==> InodeOf(fs, v.path).attrs == leader.attrs))
  }

  /** Two restored files are one inode if and only if saving took them for one. */
  predicate Sharing(vs: seq<Visit>, l: Loss, fs: FS) {
    forall i, j :: 0 <= i < |vs| && 0 <= j < |vs| && vs[i].FileVisit? && vs[j].FileVisit? &&
                   Present(vs, l, i) && Present(vs, l, j) && vs[i].path in fs.names && vs[j].path in fs.names ==>
      (fs.names[vs[i].path] == fs.names[vs[j].path] <==> LeaderOf(vs, i) == LeaderOf(vs, j))
  }

  ghost predicate RestoredAs(vs: seq<Visit>, l: Loss, fs: FS, agree: bool) {
    && NamesRestored(vs, l, fs) && Sharing(vs, l, fs)
    && (forall i :: 0 <= i < |vs| ==> ObjectRestored(vs, l, fs, agree, i))
  }

  lemma {:induction false} LeaderOfPlain(vs: seq<Visit>, i: nat)
    requires i < |vs|
    ensures vs[i].PlainVisit? ==> LeaderOf(vs, i) == i
  {}

  lemma {:induction false} ObjectIsRestored(g: Saving, fs: FS, agree: bool, i: nat)
    requires Setting(g) && Placed(g.ops, fs, agree) && i < |g.vs|
    ensures ObjectRestored(g.vs, LossIn(g), fs, agree, i)
  {
    hide Setting, Placed, LeaderOf, Lost, LossIn;
    LeaderFacts(g.vs, i);
    LeaderOfPlain(g.vs, i);
    if g.vs[i].PlainVisit? {
      OtherPlaced(g, fs, agree, i);
    } else {
      var k := LeaderPlaced(g, fs, agree, LeaderOf(g.vs, i));
      if LeaderOf(g.vs, i) != i {
        FollowerPlaced(g, fs, agree, i);
      }
    }
  }

  /** What was tried under a path is there, or nothing is. */
  lemma {:induction false} TriedIsPresent(g: Saving, fs: FS, agree: bool, p: Path)
    requires Setting(g) && Placed(g.ops, fs, agree) && Tried(g.ops, p) && p in fs.names
    ensures PresentAt(g.vs, LossIn(g), p)
  {
    hide Setting, Placed, LeaderOf, LossIn, Touches;
    var k :| 0 <= k < |g.ops| && Touches(g.ops[k]) && g.ops[k].path == p;
    var i := VisitOfOp(g, k);
    LeaderFacts(g.vs, i);
    LeaderOfPlain(g.vs, i);
    if g.vs[i].PlainVisit? {
      OtherPlaced(g, fs, agree, i);
    } else if LeaderOf(g.vs, i) == i {
      var m := LeaderPlaced(g, fs, agree, i);
    } else {
      FollowerPlaced(g, fs, agree, i);
    }
    assert Present(g.vs, LossIn(g), i);
  }

  lemma {:induction false} AboveIsImplied(g: Saving, p: Path)
    requires Setting(g)
    ensures p == ROOT || Above(g.ops, p) <==> Implied(g.vs, LossIn(g), p)
  {
    hide Setting, LossIn, Reached, Touches, Ancestor;
    if Above(g.ops, p) {
      var k :| 0 <= k < |g.ops| && Touches(g.ops[k]) && Ancestor(p, g.ops[k].path);
      var i := VisitOfOp(g, k);
    }
    if p != ROOT && Implied(g.vs, LossIn(g), p) {
      var j :| 0 <= j < |g.vs| && Reached(LossIn(g), g.vs[j].path) && Ancestor(p, g.vs[j].path);
      var k := OpOfVisit(g, j);
    }
  }

  lemma {:induction false} ExplainedAt(ops: seq<Op>, fs: FS, p: Path)
    requires NamesExplained(ops, fs)
    ensures p in fs.names && !Tried(ops, p) ==> (p == ROOT || Above(ops, p)) && fs.names[p] == OtherNode(DIR, [])
    ensures p == ROOT || Above(ops, p) ==> p in fs.names
  {
    assert p == ROOT || Above(ops, p) ==> IsDir(fs, p);
  }

  lemma {:induction false} NamesAreRestored(g: Saving, fs: FS, agree: bool)
    requires Setting(g) && Placed(g.ops, fs, agree)
    ensures NamesRestored(g.vs, LossIn(g), fs)
  {
    hide Setting, LossIn, LeaderOf, Tried, Above, Present, PlacedAt, Implied;
    forall p
      ensures p in fs.names <==> PresentAt(g.vs, LossIn(g), p) || Implied(g.vs, LossIn(g), p)
      ensures p in fs.names && !PresentAt(g.vs, LossIn(g), p) ==> fs.names[p] == OtherNode(DIR, [])
    {
      AboveIsImplied(g, p);
      ExplainedAt(g.ops, fs, p);
      if p in fs.names && Tried(g.ops, p) {
        TriedIsPresent(g, fs, agree, p);
      }
      if PresentAt(g.vs, LossIn(g), p) {
        var i :| 0 <= i < |g.vs| && g.vs[i].path == p && Present(g.vs, LossIn(g), i);
        ObjectIsRestored(g, fs, agree, i);
      }
    }
  }

  /** The inode of a restored file is that of its leader. */
  lemma {:induction false} InodeOfLeader(g: Saving, fs: FS, agree: bool, i: nat) returns (k: nat)
    requires Setting(g) && Placed(g.ops, fs, agree)
    requires i < |g.vs| && g.vs[i].FileVisit? && Present(g.vs, LossIn(g), i)
    ensures k < |g.ops| && MakesInode(g.ops[k]) && g.puts[k].path == g.vs[LeaderOf(g.vs, i)].path
    ensures g.vs[i].path in fs.names && fs.names[g.vs[i].path] == FileNode(Inodes(g.ops[..k]))
  {
    hide Setting, Placed, LeaderOf, LossIn, Lost;
    LeaderFacts(g.vs, i);
    k := LeaderPlaced(g, fs, agree, LeaderOf(g.vs, i));
    if LeaderOf(g.vs, i) != i {
      FollowerPlaced(g, fs, agree, i);
    }
  }

  lemma {:induction false} SharingIsExact(g: Saving, fs: FS, agree: bool)
    requires Setting(g) && Placed(g.ops, fs, agree)
    ensures Sharing(g.vs, LossIn(g), fs)
  {
    hide Setting, Placed, LeaderOf, Inodes, LossIn, Present;
    var vs := g.vs;
    SettingParts(g);
    forall i, j | 0 <= i < |vs| && 0 <= j < |vs| && vs[i].FileVisit? && vs[j].FileVisit? &&
                  Present(vs, LossIn(g), i) && Present(vs, LossIn(g), j)
      ensures vs[i].path in fs.names && vs[j].path in fs.names
      ensures fs.names[vs[i].path] == fs.names[vs[j].path] <==> LeaderOf(vs, i) == LeaderOf(vs, j)
    {
      var k := InodeOfLeader(g, fs, agree, i);
      var m := InodeOfLeader(g, fs, agree, j);
      SamePut(g, k, m, LeaderOf(vs, i), LeaderOf(vs, j));
      if k < m {
        InodesGrow(g.ops, k, m);
      } else if m < k {
        InodesGrow(g.ops, m, k);
      }
    }
  }

  lemma {:induction false} SamePut(g: Saving, k: nat, m: nat, i: nat, j: nat)
    requires Setting(g) && k < |g.puts| && m < |g.puts| && i < |g.vs| && j < |g.vs|
    requires g.puts[k].path == g.vs[i].path && g.puts[m].path == g.vs[j].path
    ensures k == m <==> i == j
  {}

  lemma {:induction false} RunRestores(g: Saving)
    requires Setting(g)
    ensures RestoredAs(g.vs, LossIn(g), PerformAll(Empty, g.ops).fs, KeyAttrs(g.vs))
  {
    hide Setting, LossIn, ObjectRestored, Sharing, NamesRestored, LeaderOf, PerformAll, Placed, KeyAttrs, Sound;
    var fs, agree := PerformAll(Empty, g.ops).fs, KeyAttrs(g.vs);
    RunIsSound(g);
    if agree {
      AttrsAgreed(g);
    }
    RunPlaces(g.ops, agree);
    SharingIsExact(g, fs, agree);
    NamesAreRestored(g, fs, agree);
    forall i | 0 <= i < |g.vs| ensures ObjectRestored(g.vs, LossIn(g), fs, agree, i) {
      ObjectIsRestored(g, fs, agree, i);
    }
  }

  // ---- lost links

  /** Visit i became a hard link to an earlier one. */
  predicate IsLater(vs: seq<Visit>, i: nat)
    requires i < |vs|
  {
    vs[i].FileVisit? && LeaderOf(vs, i) != i
  }

  /** The hard links that are met but cannot be made: they are excluded, or their file is not there. */
  function LostLinks(vs: seq<Visit>, l: Loss): set<Path> {
    set i | 0 <= i < |vs| && IsLater(vs, i) && vs[i].path !in l.unseen &&
            (l.excluded(vs[i].path) || Lost(l, vs[LeaderOf(vs, i)].path)) :: vs[i].path
  }

  predicate DeadLink(ops: seq<Op>, k: nat)
    requires k < |ops|
  {
    ops[k].RefuseLink? || (ops[k].PutLink? && !FileIn(ops[..k], ops[k].target))
  }

  function DeadLinks(ops: seq<Op>): set<Path> {
    set k | 0 <= k < |ops| && DeadLink(ops, k) :: ops[k].path
  }

  lemma {:induction false} DeadLinksSnoc(ops: seq<Op>, op: Op)
    ensures DeadLinks(ops + [op]) == DeadLinks(ops) + if DeadLink(ops + [op], |ops|) then {op.path} else {}
  {
    hide FileIn;
    var all := ops + [op];
    assert all[|ops|] == op && all[..|ops|] == ops;
    assert forall k :: 0 <= k < |ops| ==> all[k] == ops[k] && all[..k] == ops[..k];
  }

  lemma {:induction false} LinkErrorsByPath(ops: seq<Op>)
    requires DistinctOps(ops)
    ensures LinkErrors(ops) == |DeadLinks(ops)|
  {
    hide FileIn;
    if ops != [] {
      var n := |ops| - 1;
      LinkErrorsByPath(ops[..n]);
      var rest := DeadLinks(ops[..n]);
      assert ops[n].path !in rest;
      hide DeadLinks, DistinctOps;
      DeadLinksSnoc(ops[..n], ops[n]);
      assert ops[..n] + [ops[n]] == ops;
    }
  }

  lemma {:induction false} DeadLinkIff(g: Saving, i: nat, k: nat)
    requires Setting(g) && i < |g.vs| && k < |g.ops| && g.puts[k] == VisitPuts(g.vs)[i]
    ensures DeadLink(g.ops, k) <==>
            IsLater(g.vs, i) && g.vs[i].path !in LossIn(g).unseen &&
            (g.excluded(g.vs[i].path) || Lost(LossIn(g), g.vs[LeaderOf(g.vs, i)].path))
  {
    hide LeaderOf, TreeShaped, FileIn;
    LeaderFacts(g.vs, i);
    FateByPath(g.excluded, g.puts, g.fates, k);
    if IsLater(g.vs, i) {
      LinkFinds(g, i, k);
    }
  }

  /** Each of them is counted once. */
  lemma {:induction false} LostLinksCounted(g: Saving)
    requires Setting(g)
    ensures LinkErrors(g.ops) == |LostLinks(g.vs, LossIn(g))|
  {
    hide Setting, LossIn, DeadLink, IsLater, LeaderOf, Lost, DistinctOps;
    LinksSound(g);
    LinkErrorsByPath(g.ops);
    var lost := LostLinks(g.vs, LossIn(g));
    forall p | p in DeadLinks(g.ops) ensures p in lost {
      var k :| 0 <= k < |g.ops| && DeadLink(g.ops, k) && g.ops[k].path == p;
      var i := VisitOfOp(g, k);
      SettingParts(g);
      DeadLinkIff(g, i, k);
    }
    forall p | p in lost ensures p in DeadLinks(g.ops) {
      SettingParts(g);
      var i :| 0 <= i < |g.vs| && IsLater(g.vs, i) && g.vs[i].path !in LossIn(g).unseen &&
               (LossIn(g).excluded(g.vs[i].path) || Lost(LossIn(g), g.vs[LeaderOf(g.vs, i)].path)) && g.vs[i].path == p;
      var k := OpOfVisit(g, i);
      DeadLinkIff(g, i, k);
    }
    assert DeadLinks(g.ops) == lost;
  }

  lemma {:induction false} SettingParts(g: Saving)
    requires Setting(g)
    ensures LossIn(g).excluded == g.excluded && |g.ops| == |g.puts|
  {}

  // ---- from the tree to the stream and back

  /** Damage to the stream of a saved walk that digests can see. */
  predicate DamageOk(c: Cfg, vs: seq<Visit>, hs: seq<Harm>) {
    StreamOk(c, Saved(c, vs), hs) && AllDetected(c, Saved(c, vs), hs)
  }

  /** What the damage costs, by path. */
  function LossFrom(c: Cfg, vs: seq<Visit>, excluded: Path -> bool, hs: seq<Harm>): Loss
    requires DamageOk(c, vs, hs)
  {
    LossOf(c, excluded, Saved(c, vs), hs)
  }

  /** Restoring into an empty file system from the damaged stream, ended by its marker. */
  function Restore(c: Cfg, vs: seq<Visit>, excluded: Path -> bool, hs: seq<Harm>): Outcome
    requires DamageOk(c, vs, hs)
  {
    var stream := EmitAllHarmed(c, Saved(c, vs), hs) + [Other(DATF, c.fsid)];
    ReadObjects(EnvOf(c, excluded), Ex(stream, Empty.fs, NoStats))
  }

  function SavingOf(c: Cfg, vs: seq<Visit>, excluded: Path -> bool, hs: seq<Harm>): Saving
    requires DamageOk(c, vs, hs)
  {
    var us := Saved(c, vs);
    Saving(vs, Puts(us), Fates(c, us, hs), excluded, AllOps(EnvOf(c, excluded), c, us, hs))
  }

  lemma {:induction false} SavedSetting(c: Cfg, vs: seq<Visit>, excluded: Path -> bool, hs: seq<Harm>)
    requires CfgOk(c) && VisitsOk(vs) && DistinctPaths(vs) && TreeShaped(vs) && DamageOk(c, vs, hs)
    ensures Setting(SavingOf(c, vs, excluded, hs))
    ensures LossIn(SavingOf(c, vs, excluded, hs)) == LossFrom(c, vs, excluded, hs)
  {
    hide HarmedRun, TargetsFirst, Puts, StreamOk, Fates, AllOps, AllDetected, TreeShaped, LossBy;
    var us := Saved(c, vs);
    SavedPutsExact(c, vs);
    DistinctByContents(Puts(us), VisitPuts(vs));
    StreamHarmed(c, excluded, us, hs);
  }

  /** Whatever happened to the stream, restoring comes to its end and restores everything that is neither
      lost itself nor a hard link to a lost file. The files with missing or altered contents are counted as
      errors, each once; so are the hard links that are met but cannot be made; objects of other
      filesystems are counted apart. What is excluded or has lost its header is not counted. */
  lemma {:induction false} DamageIsContained(c: Cfg, vs: seq<Visit>, excluded: Path -> bool, hs: seq<Harm>)
    requires CfgOk(c) && VisitsOk(vs) && DistinctPaths(vs) && TreeShaped(vs) && DamageOk(c, vs, hs)
    ensures var r, l := Restore(c, vs, excluded, hs), LossFrom(c, vs, excluded, hs);
            && r.Continue? && r.ex.queue == [Other(DATF, c.fsid)]
            && RestoredAs(vs, l, r.ex.fs, KeyAttrs(vs))
            && r.ex.stats.fileErrors == |DamagedFiles(l)|
            && r.ex.stats.linkErrors == |LostLinks(vs, l)|
            && r.ex.stats.errors == AllJunkErrors(hs)
  {
    hide Setting, Sound, RestoredAs, KeyAttrs, StreamOk, AllDetected, Saved, AllOps, PerformAll, LossFrom, Restore;
    hide FileErrors, LinkErrors, AllJunkErrors, DamagedFiles, LostLinks, TreeShaped, LossIn;
    var g := SavingOf(c, vs, excluded, hs);
    SavedSetting(c, vs, excluded, hs);
    RunRestores(g);
    RunIsSound(g);
    RestoreIsRun(c, vs, excluded, hs);
    RunCounts(g.ops);
    NoJunkYet(g.ops);
    FilesCounted(g);
    LostLinksCounted(g);
  }

  lemma {:induction false} FilesCounted(g: Saving)
    requires Setting(g)
    ensures FileErrors(g.ops) == |DamagedFiles(LossIn(g))|
  {
    ErrorsAreDamaged(g.excluded, g.ops, g.puts, g.fates);
  }

  lemma {:induction false} RestoreIsRun(c: Cfg, vs: seq<Visit>, excluded: Path -> bool, hs: seq<Harm>)
    requires CfgOk(c) && VisitsOk(vs) && DamageOk(c, vs, hs)
    requires Sound(AllOps(EnvOf(c, excluded), c, Saved(c, vs), hs))
    ensures var ops := AllOps(EnvOf(c, excluded), c, Saved(c, vs), hs);
            var w := Junked(PerformAll(Empty, ops), AllJunkErrors(hs));
            Restore(c, vs, excluded, hs) == Continue(Ex([Other(DATF, c.fsid)], w.fs, w.stats))
  {
    hide Sound, StreamOk, AllDetected, AllOps, PerformAll, EmitAllHarmed, AllJunkErrors, Saved;
    SoundIsRunnable(AllOps(EnvOf(c, excluded), c, Saved(c, vs), hs));
    StreamRestored(c, excluded, Saved(c, vs), hs, [Other(DATF, c.fsid)], Empty);
  }

  lemma {:induction false} SoundIsRunnable(ops: seq<Op>)
    requires Sound(ops)
    ensures Runnable(Empty.fs, ops)
  {}

  lemma {:induction false} NoJunkYet(ops: seq<Op>)
    ensures PerformAll(Empty, ops).stats.errors == 0
  {
    if ops != [] {
      NoJunkYet(ops[..|ops| - 1]);
    }
  }

  // ---- the restored tree against the source

  /** One inode of the source. */
  predicate SameInode(v: Visit, w: Visit) {
    v.FileVisit? && w.FileVisit? && v.dev == w.dev && v.ino == w.ino
  }

  /** The tree did not change while it was walked: all visits of an inode see the same, and an inode that
      is visited twice has several links. */
  predicate Snapshot(vs: seq<Visit>) {
    forall i, j :: 0 <= i < |vs| && 0 <= j < |vs| && SameInode(vs[i], vs[j]) ==>
      && vs[i].rdev == vs[j].rdev && vs[i].nlink == vs[j].nlink && vs[i].attrs == vs[j].attrs
      && ContentOf(vs[i]) == ContentOf(vs[j]) && (i != j ==> vs[i].nlink > 1)
  }

  /** Files with several links that have the same inode number and the same st_rdev are on one device. */
  predicate KeysOk(vs: seq<Visit>) {
    forall i, j :: 0 <= i < |vs| && 0 <= j < |vs| && SeveralLinks(vs[j]) && HasKey(vs[i], vs[j].rdev, vs[j].ino) ==>
      vs[i].dev == vs[j].dev
  }

  /** Visit j is the first one of the inode of visit i. */
  predicate FirstLinkOf(vs: seq<Visit>, j: nat, i: nat)
    requires j < |vs| && i < |vs|
  {
    SameInode(vs[j], vs[i]) && forall k :: 0 <= k < j ==> !SameInode(vs[k], vs[i])
  }

  /** Object i has not been lost, nor has the first link to its inode. */
  predicate Survives(vs: seq<Visit>, l: Loss, i: nat)
    requires i < |vs|
  {
    !Lost(l, vs[i].path) && forall j :: 0 <= j < |vs| && FirstLinkOf(vs, j, i) ==> !Lost(l, vs[j].path)
  }

  predicate SurvivesAt(vs: seq<Visit>, l: Loss, p: Path) {
    exists i :: 0 <= i < |vs| && vs[i].path == p && Survives(vs, l, i)
  }

  /** Nothing else is there than what survives and the directories above what was tried. */
  ghost predicate NamesFaithful(vs: seq<Visit>, l: Loss, fs: FS) {
    forall p :: (p in fs.names <==> SurvivesAt(vs, l, p) || Implied(vs, l, p))
             && (p in fs.names && !SurvivesAt(vs, l, p) ==> fs.names[p] == OtherNode(DIR, []))
  }

  /** Object i as it was saved, if it survives; small files with altered bytes are empty. */
  predicate ObjectFaithful(vs: seq<Visit>, l: Loss, fs: FS, i: nat)
    requires i < |vs|
  {
    var v := vs[i];
    Survives(vs, l, i) ==>
      && v.path in fs.names
      && (v.PlainVisit? ==> fs.names[v.path] == OtherNode(v.objtype, v.attrs))
      && (v.FileVisit? ==>
            && IsFile(fs, v.path)
            && (v.path in l.altered ==> InodeOf(fs, v.path).content == [])
            && ((forall j :: 0 <= j < |vs| && FirstLinkOf(vs, j, i) ==> vs[j].path !in l.altered) ==>
                  InodeOf(fs, v.path) == Inode(ContentOf(v), v.attrs)))
  }

  predicate FaithfulSharing(vs: seq<Visit>, l: Loss, fs: FS) {
    forall i, j :: 0 <= i < |vs| && 0 <= j < |vs| && vs[i].FileVisit? && vs[j].FileVisit? &&
                   Survives(vs, l, i) && Survives(vs, l, j) && vs[i].path in fs.names && vs[j].path in fs.names ==>
      (fs.names[vs[i].path] == fs.names[vs[j].path] <==> SameInode(vs[i], vs[j]))
  }

  /** The file system is the saved tree, less what is lost, and less the contents of altered small files. */
  ghost predicate Faithful(vs: seq<Visit>, l: Loss, fs: FS) {
    && NamesFaithful(vs, l, fs) && FaithfulSharing(vs, l, fs)
    && (forall i :: 0 <= i < |vs| ==> ObjectFaithful(vs, l, fs, i))
  }

  lemma {:induction false} LeaderIsFirstLink(vs: seq<Visit>, i: nat, j: nat)
    requires Snapshot(vs) && KeysOk(vs) && i < |vs| && j < |vs| && vs[i].FileVisit?
    ensures FirstLinkOf(vs, j, i) <==> j == LeaderOf(vs, i)
    ensures vs[j].FileVisit? ==> (SameInode(vs[i], vs[j]) <==> LeaderOf(vs, i) == LeaderOf(vs, j))
    ensures SameInode(vs[LeaderOf(vs, i)], vs[i])
  {
    var l := LeaderOf(vs, i);
    LeaderFacts(vs, i);
    assert SameInode(vs[l], vs[i]);
    forall k | 0 <= k < l ensures !SameInode(vs[k], vs[i]) {
      if SeveralLinks(vs[i]) {
        assert !HasKey(vs[k], vs[i].rdev, vs[i].ino);
      }
    }
    if vs[j].FileVisit? {
      LeaderFacts(vs, j);
      assert SameInode(vs[LeaderOf(vs, j)], vs[j]);
    }
  }

  lemma {:induction false} SurvivesIsPresent(vs: seq<Visit>, l: Loss, i: nat)
    requires Snapshot(vs) && KeysOk(vs) && i < |vs|
    ensures Survives(vs, l, i) <==> Present(vs, l, i)
  {
    hide LeaderOf, KeysOk, Snapshot, Lost;
    LeaderOfPlain(vs, i);
    if vs[i].FileVisit? {
      forall j | 0 <= j < |vs| ensures FirstLinkOf(vs, j, i) <==> j == LeaderOf(vs, i) {
        LeaderIsFirstLink(vs, i, j);
      }
    }
  }

  lemma {:induction false} ObjectIsFaithful(vs: seq<Visit>, l: Loss, fs: FS, i: nat)
    requires Snapshot(vs) && KeysOk(vs) && i < |vs| && ObjectRestored(vs, l, fs, true, i)
    requires vs[i].path in l.altered && !Lost(l, vs[i].path) ==> LeaderOf(vs, i) == i
    ensures ObjectFaithful(vs, l, fs, i)
  {
    hide LeaderOf, KeysOk, Lost, Survives, Present;
    SurvivesIsPresent(vs, l, i);
    SurvivesItself(vs, l, i);
    if vs[i].FileVisit? {
      forall j | 0 <= j < |vs| ensures FirstLinkOf(vs, j, i) <==> j == LeaderOf(vs, i) {
        LeaderIsFirstLink(vs, i, j);
      }
      LeaderIsFirstLink(vs, i, i);
      assert ContentOf(vs[LeaderOf(vs, i)]) == ContentOf(vs[i]);
    }
  }

  lemma {:induction false} SurvivesItself(vs: seq<Visit>, l: Loss, i: nat)
    requires i < |vs|
    ensures Survives(vs, l, i) ==> !Lost(l, vs[i].path)
  {}

  lemma {:induction false} RestoredIsFaithful(vs: seq<Visit>, l: Loss, fs: FS)
    requires Snapshot(vs) && KeysOk(vs) && RestoredAs(vs, l, fs, true)
    requires forall i :: 0 <= i < |vs| && vs[i].path in l.altered && !Lost(l, vs[i].path) ==> LeaderOf(vs, i) == i
    ensures Faithful(vs, l, fs)
  {
    hide LeaderOf, Snapshot, KeysOk, Lost, Survives, Present, Implied, ObjectFaithful, ObjectRestored;
    forall i | 0 <= i < |vs| ensures Survives(vs, l, i) <==> Present(vs, l, i) {
      SurvivesIsPresent(vs, l, i);
    }
    forall i | 0 <= i < |vs| ensures ObjectFaithful(vs, l, fs, i) {
      ObjectIsFaithful(vs, l, fs, i);
    }
    forall p ensures SurvivesAt(vs, l, p) <==> PresentAt(vs, l, p) {
    }
    forall i, j | 0 <= i < |vs| && 0 <= j < |vs| && vs[i].FileVisit? && vs[j].FileVisit?
      ensures SameInode(vs[i], vs[j]) <==> LeaderOf(vs, i) == LeaderOf(vs, j)
    {
      LeaderIsFirstLink(vs, i, j);
    }
  }

  lemma {:induction false} AttrsByKey(vs: seq<Visit>)
    requires Snapshot(vs) && KeysOk(vs)
    ensures KeyAttrs(vs)
  {
    hide LeaderOf, KeysOk;
    forall i | 0 <= i < |vs| ensures vs[i].attrs == vs[LeaderOf(vs, i)].attrs {
      LeaderOfPlain(vs, i);
      if vs[i].FileVisit? {
        LeaderIsFirstLink(vs, i, i);
      }
    }
  }

  lemma {:induction false} AlteredAreSmall(g: Saving, i: nat)
    requires Setting(g) && i < |g.vs| && g.vs[i].path in LossIn(g).altered && !Lost(LossIn(g), g.vs[i].path)
    ensures LeaderOf(g.vs, i) == i
  {
    hide LeaderOf, Setting;
    var k := OpOfVisit(g, i);
    LeaderFacts(g.vs, i);
    LeaderOfPlain(g.vs, i);
  }

  /** Damage costs nothing but what it touches. Of a tree that did not change while it was saved, all is
      restored as it was - contents, attributes, and which names share an inode - except that
      - large files with a missing or altered block, and their hard links, are not there;
      - small files whose bytes were altered are empty;
      - objects whose header is lost or that are excluded, and hard links to those files, are not there, but
        a directory among them comes back with default attributes when something below it is restored. */
  lemma {:induction false} DamagedTreeFaithful(c: Cfg, vs: seq<Visit>, excluded: Path -> bool, hs: seq<Harm>)
    requires CfgOk(c) && VisitsOk(vs) && DistinctPaths(vs) && TreeShaped(vs) && DamageOk(c, vs, hs)
    requires Snapshot(vs) && KeysOk(vs)
    ensures var r := Restore(c, vs, excluded, hs);
            r.Continue? && Faithful(vs, LossFrom(c, vs, excluded, hs), r.ex.fs)
  {
    hide Setting, RestoredAs, StreamOk, AllDetected, Saved, AllOps, LossFrom, Restore, KeyAttrs, Snapshot, KeysOk;
    hide LeaderOf, AllJunkErrors, TreeShaped, LossIn, SavingOf, DamagedFiles, LostLinks, Lost, Faithful;
    var g, l := SavingOf(c, vs, excluded, hs), LossFrom(c, vs, excluded, hs);
    SavedSetting(c, vs, excluded, hs);
    SavingVisits(c, vs, excluded, hs);
    DamageIsContained(c, vs, excluded, hs);
    AttrsByKey(vs);
    forall i | 0 <= i < |vs| && vs[i].path in l.altered && !Lost(l, vs[i].path) ensures LeaderOf(vs, i) == i {
      AlteredAreSmall(g, i);
    }
    RestoredIsFaithful(vs, l, Restore(c, vs, excluded, hs).ex.fs);
  }

  lemma {:induction false} SavingVisits(c: Cfg, vs: seq<Visit>, excluded: Path -> bool, hs: seq<Harm>)
    requires DamageOk(c, vs, hs)
    ensures SavingOf(c, vs, excluded, hs).vs == vs
  {}

  // ---- no damage

  function NoHarm(n: nat): seq<Harm> {
    seq(n, _ => Harm([], Intact))
  }

  const NoneExcluded: Path -> bool := _ => false

  const NoLoss := Loss(NoneExcluded, {}, {}, {})

  lemma {:induction false} NoHarmIsOk(c: Cfg, us: seq<Unit>)
    requires CfgOk(c) && UnitsOk(us) && forall i :: 0 <= i < |us| ==> DigestsOk(c, us[i])
    ensures StreamOk(c, us, NoHarm(|us|)) && AllDetected(c, us, NoHarm(|us|))
    ensures EmitAllHarmed(c, us, NoHarm(|us|)) == Emit(c, us)
    ensures forall f :: f in Fates(c, us, NoHarm(|us|)) ==> f == Kept
  {
    hide EmitUnit, UnitOk, DigestsOk, UnitPuts;
    if us != [] {
      var n := |us| - 1;
      NoHarmIsOk(c, us[..n]);
      assert NoHarm(|us|)[..n] == NoHarm(n);
      assert [] + EmitUnit(c, us[n]) == EmitUnit(c, us[n]);
    }
  }

  lemma {:induction false} NothingLost(c: Cfg, us: seq<Unit>, hs: seq<Harm>)
    requires StreamOk(c, us, hs) && forall f :: f in Fates(c, us, hs) ==> f == Kept
    ensures LossOf(c, NoneExcluded, us, hs) == NoLoss
  {
    hide Fates, Puts, StreamOk;
    var fates := Fates(c, us, hs);
    assert forall k :: 0 <= k < |fates| ==> fates[k] in fates;
  }

  /** Restoring a stream that was not damaged. */
  function RestoreAll(c: Cfg, vs: seq<Visit>): Outcome
    requires CfgOk(c) && VisitsOk(vs)
  {
    SavedPutsExact(c, vs);
    ReadObjects(EnvOf(c, NoneExcluded), Ex(Emit(c, Saved(c, vs)) + [Other(DATF, c.fsid)], Empty.fs, NoStats))
  }

  lemma {:induction false} UndamagedRestored(c: Cfg, vs: seq<Visit>)
    requires CfgOk(c) && VisitsOk(vs) && DistinctPaths(vs) && TreeShaped(vs)
    ensures var r := RestoreAll(c, vs);
            r.Continue? && r.ex.stats.errors == 0 && RestoredAs(vs, NoLoss, r.ex.fs, KeyAttrs(vs))
  {
    hide RestoredAs, Saved, KeyAttrs, EmitAllHarmed, StreamOk, AllDetected, LossOf, Fates;
    hide ReadObjects, UnitOk, VisitsOk, DistinctPaths, TreeShaped, DigestsOk, Puts, VisitPuts, DamagedFiles, LostLinks;
    var us := Saved(c, vs);
    var hs := NoHarm(|us|);
    SavedPutsExact(c, vs);
    NoHarmIsOk(c, us);
    NothingLost(c, us, hs);
    NoJunk(|us|);
    DamageIsContained(c, vs, NoneExcluded, hs);
  }

  lemma {:induction false} NoJunk(n: nat)
    ensures AllJunkErrors(NoHarm(n)) == 0
  {
    if n > 0 {
      NoJunk(n - 1);
      assert NoHarm(n)[..n - 1] == NoHarm(n - 1);
    }
  }

  /** Saving and restoring is the identity - contents, attributes and which names share an inode - if and
      only if no two devices have files with several links, the same inode number and the same st_rdev. */
  lemma {:induction false} SaveThenRestore(c: Cfg, vs: seq<Visit>)
    requires CfgOk(c) && VisitsOk(vs) && DistinctPaths(vs) && TreeShaped(vs) && Snapshot(vs)
    ensures RestoreAll(c, vs).Continue?
    ensures Faithful(vs, NoLoss, RestoreAll(c, vs).ex.fs) <==> KeysOk(vs)
  {
    hide RestoreAll, Snapshot, KeyAttrs, RestoredAs, Faithful, KeysOk, TreeShaped;
    UndamagedRestored(c, vs);
    FaithfulIff(vs, RestoreAll(c, vs).ex.fs);
  }

  lemma {:induction false} AllPresent(vs: seq<Visit>, i: nat)
    requires i < |vs|
    ensures Present(vs, NoLoss, i) && Survives(vs, NoLoss, i)
  {}

  lemma {:induction false} FaithfulIff(vs: seq<Visit>, fs: FS)
    requires Snapshot(vs) && RestoredAs(vs, NoLoss, fs, KeyAttrs(vs))
    ensures Faithful(vs, NoLoss, fs) <==> KeysOk(vs)
  {
    hide LeaderOf, Snapshot, KeyAttrs, ObjectRestored, ObjectFaithful, Survives, Present, NamesRestored, NamesFaithful;
    if KeysOk(vs) {
      AttrsByKey(vs);
      RestoredIsFaithful(vs, NoLoss, fs);
    }
    if Faithful(vs, NoLoss, fs) {
      forall i, j | 0 <= i < |vs| && 0 <= j < |vs| && SeveralLinks(vs[j]) && HasKey(vs[i], vs[j].rdev, vs[j].ino)
        ensures vs[i].dev == vs[j].dev
      {
        IsThere(vs, fs, i);
        IsThere(vs, fs, j);
        AllPresent(vs, i);
        AllPresent(vs, j);
        OneLeader(vs, i, j);
      }
    }
  }

  lemma {:induction false} IsThere(vs: seq<Visit>, fs: FS, i: nat)
    requires i < |vs| && RestoredAs(vs, NoLoss, fs, KeyAttrs(vs))
    ensures vs[i].path in fs.names
  {
    AllPresent(vs, i);
    assert ObjectRestored(vs, NoLoss, fs, KeyAttrs(vs), i);
  }

  lemma {:induction false} OneLeader(vs: seq<Visit>, i: nat, j: nat)
    requires i < |vs| && j < |vs| && SeveralLinks(vs[j]) && HasKey(vs[i], vs[j].rdev, vs[j].ino)
    ensures LeaderOf(vs, i) == LeaderOf(vs, j)
  {}
}
