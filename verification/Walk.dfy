/** The walk over a directory tree and the paths it visits (src/oper_save.c, src/common.c). */
module Walk {
  import opened Bytes
  import opened Records

  /** What lstat and read say of one directory entry. Between the two a file may have changed: `data` is
      what read returns up to the end of the file. */
  datatype Visit =
    | PlainVisit(path: Path, objtype: ObjType, size: u64, attrs: Attrs)
    | FileVisit(path: Path, dev: u64, rdev: u64, ino: u64, nlink: nat, size: u64, sparse: bool,
                attrs: Attrs, data: bytes)

  /** Directories, symbolic links, devices, pipes and sockets consist of a header only. */
  predicate VisitOk(v: Visit) {
    |v.path| < PATH_MAX && (v.PlainVisit? ==> v.objtype !in {HARDLINK, REGFILEUNIQUE, REGFILEMULTI})
  }

  predicate VisitsOk(vs: seq<Visit>) {
    forall i :: 0 <= i < |vs| ==> VisitOk(vs[i])
  }

  predicate DistinctPaths(vs: seq<Visit>) {
    forall i, j :: 0 <= i < j < |vs| ==> vs[i].path != vs[j].path
  }

  // ---- paths

  /** Without its last slash, if it ends in one. */
  function Stem(p: Path): Path {
    if p != [] && p[|p| - 1] == SLASH then p[..|p| - 1] else p
  }

  function Unslashed(p: Path): Path {
    if p != [] && p[0] == SLASH then Unslashed(p[1..]) else p
  }

  function Join(p: Path, name: bytes): Path {
    Stem(p) + [SLASH] + Unslashed(name)
  }

  method ConcatenatePaths(p1: Path, p2: Path) returns (buffer: Path)
    ensures buffer == Join(p1, p2)
  {
    buffer := [];
    var i := 0;
    while i < |p1| && (p1[i] != SLASH || i + 1 < |p1|)
      invariant 0 <= i <= |p1| && buffer == p1[..i] && |Stem(p1)| >= i
    {
      buffer := buffer + [p1[i]];
      i := i + 1;
    }
    assert buffer == Stem(p1);
    buffer := buffer + [SLASH];
    var j := 0;
    while j < |p2| && p2[j] == SLASH
      invariant 0 <= j <= |p2| && Unslashed(p2) == Unslashed(p2[j..])
    {
      j := j + 1;
    }
    buffer := buffer + p2[j..];
  }

  /** An ordinary name is set off by one slash, whether the directory ends in one or not. */
  lemma {:induction false} JoinName(p: Path, name: bytes)
    requires name != [] && name[0] != SLASH
    ensures Join(p, name) == if p != [] && p[|p| - 1] == SLASH then p + name else p + [SLASH] + name
    ensures Join(p, [SLASH] + name) == Join(p, name)
  {
    assert ([SLASH] + name)[1..] == name;
    if p != [] && p[|p| - 1] == SLASH {
      assert p == p[..|p| - 1] + [SLASH];
    }
  }

  // ---- trees

  datatype Tree =
    | PlainTree(objtype: ObjType, size: u64, attrs: Attrs)
    | FileTree(dev: u64, rdev: u64, ino: u64, nlink: nat, size: u64, sparse: bool, attrs: Attrs, data: bytes)
    | DirTree(size: u64, attrs: Attrs, entries: seq<DirEntry>)
  datatype DirEntry = DirEntry(name: bytes, node: Tree)

  function VisitOf(path: Path, t: Tree): (v: Visit)
    ensures v.path == path
  {
    match t
    case PlainTree(objtype, size, attrs) => PlainVisit(path, objtype, size, attrs)
    case FileTree(dev, rdev, ino, nlink, size, sparse, attrs, data) =>
      FileVisit(path, dev, rdev, ino, nlink, size, sparse, attrs, data)
    case DirTree(size, attrs, _) => PlainVisit(path, DIR, size, attrs)
  }

  /** A directory entry is left out by its name or by its path. */
  predicate Excluded(exclude: bytes -> bool, path: Path, name: bytes) {
    exclude(name) || exclude(Join(path, name))
  }

  function Entries(t: Tree): nat {
    if t.DirTree? then |t.entries| else 0
  }

  /** A directory, then what is in it. */
  function Visits(exclude: bytes -> bool, path: Path, t: Tree): seq<Visit>
    decreases t, Entries(t) + 1
  {
    [VisitOf(path, t)] + if t.DirTree? then EntryVisits(exclude, path, t, |t.entries|) else []
  }

  /** What is in the first n entries of a directory. */
  function EntryVisits(exclude: bytes -> bool, path: Path, t: Tree, n: nat): seq<Visit>
    requires t.DirTree? && n <= |t.entries|
    decreases t, n
  {
    if n == 0 then [] else EntryVisits(exclude, path, t, n - 1) + VisitsOfEntry(exclude, path, t.entries[n - 1])
  }

  function VisitsOfEntry(exclude: bytes -> bool, path: Path, e: DirEntry): seq<Visit>
    decreases e.node, Entries(e.node) + 2
  {
    if Excluded(exclude, path, e.name) then [] else Visits(exclude, Join(path, e.name), e.node)
  }

  predicate NameOk(name: bytes) {
    name != [] && SLASH !in name
  }

  /** Names are proper and differ within every directory. */
  predicate TreeOk(t: Tree) {
    t.DirTree? ==>
      && (forall i :: 0 <= i < |t.entries| ==> NameOk(t.entries[i].name) && TreeOk(t.entries[i].node))
      && (forall i, j :: 0 <= i < j < |t.entries| ==> t.entries[i].name != t.entries[j].name)
  }

  /** The path of an object, or the path of something in it. */
  predicate Under(p: Path, q: Path) {
    q == p || (|q| > |Stem(p)| + 1 && q[..|Stem(p)| + 1] == Stem(p) + [SLASH])
  }

  lemma {:induction false} UnderEntry(p: Path, name: bytes, q: Path)
    requires NameOk(name) && Under(Join(p, name), q)
    ensures |q| > |Stem(p)| + |name| && q[..|Stem(p)| + 1] == Stem(p) + [SLASH]
    ensures q[|Stem(p)| + 1..|Stem(p)| + 1 + |name|] == name
    ensures |q| == |Stem(p)| + 1 + |name| || q[|Stem(p)| + 1 + |name|] == SLASH
    ensures Under(p, q) && q != p
  {
    var b := Join(p, name);
    assert b[|b| - 1] == name[|name| - 1];
    assert Stem(b) == b && |b| == |Stem(p)| + 1 + |name|;
    if q != b {
      assert q[..|b|] == q[..|b| + 1][..|b|] == b && q[|b|] == (q[..|b| + 1])[|b|] == SLASH;
    }
    assert q[..|b|][..|Stem(p)| + 1] == q[..|Stem(p)| + 1];
    assert q[..|b|][|Stem(p)| + 1..] == q[|Stem(p)| + 1..|b|];
  }

  /** Two names in one directory lead to different paths. */
  lemma {:induction false} Apart(p: Path, m: bytes, n: bytes, q: Path, r: Path)
    requires NameOk(m) && NameOk(n) && m != n && |m| <= |n|
    requires Under(Join(p, m), q) && Under(Join(p, n), r)
    ensures q != r
  {
    UnderEntry(p, m, q);
    UnderEntry(p, n, r);
    var s := |Stem(p)| + 1;
    if |m| < |n| {
      assert n[|m|] == r[s..s + |n|][|m|] == r[s + |m|];
    }
  }

  lemma {:induction false} VisitsUnder(exclude: bytes -> bool, path: Path, t: Tree, k: nat)
    requires TreeOk(t) && k < |Visits(exclude, path, t)|
    ensures Under(path, Visits(exclude, path, t)[k].path)
    decreases t, Entries(t) + 1
  {
    if k > 0 {
      var x := EntryVisitsUnder(exclude, path, t, |t.entries|, k - 1);
    }
  }

  /** Every path in a directory lies under exactly one of its entries. */
  lemma {:induction false} EntryVisitsUnder(exclude: bytes -> bool, path: Path, t: Tree, n: nat, k: nat)
    returns (i: nat)
    requires TreeOk(t) && t.DirTree? && n <= |t.entries| && k < |EntryVisits(exclude, path, t, n)|
    ensures i < n && Under(Join(path, t.entries[i].name), EntryVisits(exclude, path, t, n)[k].path)
    ensures var q := EntryVisits(exclude, path, t, n)[k].path; Under(path, q) && q != path
    decreases t, n
  {
    var e := t.entries[n - 1];
    var before := |EntryVisits(exclude, path, t, n - 1)|;
    if k < before {
      i := EntryVisitsUnder(exclude, path, t, n - 1, k);
    } else {
      i := n - 1;
      VisitsUnder(exclude, Join(path, e.name), e.node, k - before);
      UnderEntry(path, e.name, EntryVisits(exclude, path, t, n)[k].path);
    }
  }

  /** No path is visited twice. */
  lemma {:induction false} WalkDistinct(exclude: bytes -> bool, path: Path, t: Tree)
    requires TreeOk(t)
    ensures DistinctPaths(Visits(exclude, path, t))
    decreases t, Entries(t) + 1
  {
    hide EntryVisits, TreeOk, Under;
    var vs := Visits(exclude, path, t);
    if t.DirTree? {
      EntriesDistinct(exclude, path, t, |t.entries|);
      var es := EntryVisits(exclude, path, t, |t.entries|);
      forall i, j | 0 <= i < j < |vs| ensures vs[i].path != vs[j].path {
        var x := EntryVisitsUnder(exclude, path, t, |t.entries|, j - 1);
        assert vs[j] == es[j - 1] && (i > 0 ==> vs[i] == es[i - 1]);
      }
    }
  }

  lemma {:induction false} EntryTreeOk(t: Tree, n: nat)
    requires TreeOk(t) && t.DirTree? && n < |t.entries|
    ensures NameOk(t.entries[n].name) && TreeOk(t.entries[n].node)
    ensures forall i :: 0 <= i < n ==> NameOk(t.entries[i].name) && t.entries[i].name != t.entries[n].name
  {}

  lemma {:induction false} EntriesDistinct(exclude: bytes -> bool, path: Path, t: Tree, n: nat)
    requires TreeOk(t) && t.DirTree? && n <= |t.entries|
    ensures DistinctPaths(EntryVisits(exclude, path, t, n))
    decreases t, n
  {
    hide Under, TreeOk, Visits, Join;
    if n > 0 {
      EntryTreeOk(t, n - 1);
      EntriesDistinct(exclude, path, t, n - 1);
      var e := t.entries[n - 1];
      WalkDistinct(exclude, Join(path, e.name), e.node);
      var a, vs := EntryVisits(exclude, path, t, n - 1), EntryVisits(exclude, path, t, n);
      var b := if Excluded(exclude, path, e.name) then [] else Visits(exclude, Join(path, e.name), e.node);
      assert vs == a + b && DistinctPaths(b);
      forall i, j | 0 <= i < j < |vs| ensures vs[i].path != vs[j].path {
        if j < |a| {
          assert vs[i] == a[i] && vs[j] == a[j];
        } else if |a| <= i {
          assert vs[i] == b[i - |a|] && vs[j] == b[j - |a|];
        } else {
          assert vs[i] == a[i] && vs[j] == b[j - |a|];
          var x := EntryVisitsUnder(exclude, path, t, n - 1, i);
          VisitsUnder(exclude, Join(path, e.name), e.node, j - |a|);
          var m := t.entries[x].name;
          if |m| <= |e.name| {
            Apart(path, m, e.name, vs[i].path, vs[j].path);
          } else {
            Apart(path, e.name, m, vs[j].path, vs[i].path);
          }
        }
      }
    }
  }

  // ---- directories above

  predicate IsDirVisit(v: Visit) {
    v.PlainVisit? && v.objtype == DIR
  }

  /** Only directories have anything below them. */
  predicate DirsAbove(vs: seq<Visit>) {
    forall i, j :: 0 <= i < |vs| && 0 <= j < |vs| && Ancestor(vs[i].path, vs[j].path) ==> IsDirVisit(vs[i])
  }

  predicate TreeShaped(vs: seq<Visit>) {
    DirsAbove(vs) && forall i :: 0 <= i < |vs| && vs[i].path == [SLASH] ==> IsDirVisit(vs[i])
  }

  /** What lies in one entry of a directory is not above what lies in another. */
  lemma {:induction false} NotAcross(p: Path, m: bytes, n: bytes, q: Path, r: Path)
    requires NameOk(m) && NameOk(n) && m != n
    requires Under(Join(p, m), q) && Under(Join(p, n), r)
    ensures !Ancestor(q, r)
  {
    hide Join, Under, NameOk, Ancestor;
    BelowEntry(p, m, q, r);
    UnderEntry(p, n, r);
    EntryOfPath(r, |Stem(p)| + 1, m, n);
  }

  /** What follows this place in a path is a name and something below it. */
  predicate NameAt(r: Path, s: nat, name: bytes) {
    s + |name| < |r| && r[s..s + |name|] == name && r[s + |name|] == SLASH
  }

  lemma {:induction false} BelowEntry(p: Path, m: bytes, q: Path, r: Path)
    requires NameOk(m) && Under(Join(p, m), q)
    ensures Ancestor(q, r) ==> NameAt(r, |Stem(p)| + 1, m)
  {
    hide Under, NameOk, Join;
    UnderEntry(p, m, q);
    if Ancestor(q, r) {
      StillAt(q, r, |Stem(p)| + 1, m);
    }
  }

  lemma {:induction false} StillAt(q: Path, r: Path, s: nat, m: bytes)
    requires Ancestor(q, r) && s + |m| <= |q| && q[s..s + |m|] == m && (|q| == s + |m| || q[s + |m|] == SLASH)
    ensures NameAt(r, s, m)
  {
    assert r[s..s + |m|] == r[..|q|][s..s + |m|];
    assert |q| > s + |m| ==> r[s + |m|] == r[..|q|][s + |m|];
  }

  /** A path says of which entry it is. */
  lemma {:induction false} EntryOfPath(r: Path, s: nat, m: bytes, n: bytes)
    requires NameOk(m) && NameOk(n) && m != n
    requires s + |n| <= |r| && r[s..s + |n|] == n && (|r| == s + |n| || r[s + |n|] == SLASH)
    ensures !NameAt(r, s, m)
  {
    assert |m| < |n| ==> r[s..s + |n|][|m|] == r[s + |m|];
    assert |n| < |m| && s + |m| < |r| ==> r[s..s + |m|][|n|] == r[s + |n|] == SLASH;
  }

  /** The paths of a walk form a tree. */
  lemma {:induction false} WalkShaped(exclude: bytes -> bool, path: Path, t: Tree)
    requires TreeOk(t) && t.DirTree?
    ensures TreeShaped(Visits(exclude, path, t))
  {
    hide EntryVisits, TreeOk, Under;
    WalkDirsAbove(exclude, path, t);
    var vs := Visits(exclude, path, t);
    forall i | 1 <= i < |vs| ensures vs[i].path != [SLASH] {
      var x := EntryVisitsUnder(exclude, path, t, |t.entries|, i - 1);
      EntryTreeOk(t, x);
      UnderEntry(path, t.entries[x].name, vs[i].path);
    }
  }

  lemma {:induction false} WalkDirsAbove(exclude: bytes -> bool, path: Path, t: Tree)
    requires TreeOk(t)
    ensures DirsAbove(Visits(exclude, path, t))
    decreases t, Entries(t) + 1
  {
    hide EntryVisits, TreeOk;
    var vs := Visits(exclude, path, t);
    if t.DirTree? {
      EntriesDirsAbove(exclude, path, t, |t.entries|);
      var es := EntryVisits(exclude, path, t, |t.entries|);
      forall i, j | 0 <= i < |vs| && 0 <= j < |vs| && Ancestor(vs[i].path, vs[j].path) ensures IsDirVisit(vs[i]) {
        if i > 0 {
          var x := EntryVisitsUnder(exclude, path, t, |t.entries|, i - 1);
          assert vs[i] == es[i - 1] && j > 0 && vs[j] == es[j - 1];
        }
      }
    }
  }

  lemma {:induction false} EntriesDirsAbove(exclude: bytes -> bool, path: Path, t: Tree, n: nat)
    requires TreeOk(t) && t.DirTree? && n <= |t.entries|
    ensures DirsAbove(EntryVisits(exclude, path, t, n))
    decreases t, n
  {
    hide Under, TreeOk, Visits, Join;
    if n > 0 {
      EntryTreeOk(t, n - 1);
      EntriesDirsAbove(exclude, path, t, n - 1);
      var e := t.entries[n - 1];
      WalkDirsAbove(exclude, Join(path, e.name), e.node);
      var a, vs := EntryVisits(exclude, path, t, n - 1), EntryVisits(exclude, path, t, n);
      var b := if Excluded(exclude, path, e.name) then [] else Visits(exclude, Join(path, e.name), e.node);
      assert vs == a + VisitsOfEntry(exclude, path, e) == a + b;
      assert DirsAbove(b);
      forall i, j | 0 <= i < |a| && 0 <= j < |b|
        ensures !Ancestor(a[i].path, b[j].path) && !Ancestor(b[j].path, a[i].path)
      {
        var x := EntryVisitsUnder(exclude, path, t, n - 1, i);
        EntryTreeOk(t, x);
        VisitsUnder(exclude, Join(path, e.name), e.node, j);
        NotAcross(path, t.entries[x].name, e.name, a[i].path, b[j].path);
        NotAcross(path, e.name, t.entries[x].name, b[j].path, a[i].path);
      }
      DirsAboveConcat(a, b);
    }
  }

  lemma {:induction false} DirsAboveConcat(a: seq<Visit>, b: seq<Visit>)
    requires DirsAbove(a) && DirsAbove(b)
    requires forall i, j :: 0 <= i < |a| && 0 <= j < |b| ==>
               !Ancestor(a[i].path, b[j].path) && !Ancestor(b[j].path, a[i].path)
    ensures DirsAbove(a + b)
  {
    hide Ancestor, IsDirVisit;
    var vs := a + b;
    assert forall i :: 0 <= i < |a| ==> vs[i] == a[i];
    assert forall i :: |a| <= i < |vs| ==> vs[i] == b[i - |a|];
  }
}
