/** The nodes of a directory tree, found by the positions of the entries that lead to them, and the visits of
    the walk: every node that is not excluded is visited once, as it is, and in the order of the entries. */
module Nodes {
  import opened Bytes
  import opened Records
  import opened Walk

  /** These positions lead to a node, and on the way no name and no path is excluded. */
  predicate Admitted(exclude: bytes -> bool, path: Path, t: Tree, at: seq<nat>)
    decreases |at|
  {
    at == [] ||
    (t.DirTree? && at[0] < |t.entries| &&
     var e := t.entries[at[0]];
     !exclude(e.name) && !exclude(Join(path, e.name)) && Admitted(exclude, Join(path, e.name), e.node, at[1..]))
  }

  /** The node that the positions lead to, as far as there are any. */
  function NodeAt(t: Tree, at: seq<nat>): Tree
    decreases |at|
  {
    if at == [] || !t.DirTree? || at[0] >= |t.entries| then t else NodeAt(t.entries[at[0]].node, at[1..])
  }

  function PathAt(path: Path, t: Tree, at: seq<nat>): Path
    decreases |at|
  {
    if at == [] || !t.DirTree? || at[0] >= |t.entries| then path
    else PathAt(Join(path, t.entries[at[0]].name), t.entries[at[0]].node, at[1..])
  }

  /** The visit has all that lstat and read say of the node. */
  predicate Shows(v: Visit, node: Tree) {
    match node
    case PlainTree(objtype, size, attrs) =>
      v.PlainVisit? && v.objtype == objtype && v.size == size && v.attrs == attrs
    case DirTree(size, attrs, _) =>
      v.PlainVisit? && v.objtype == DIR && v.size == size && v.attrs == attrs
    case FileTree(dev, rdev, ino, nlink, size, sparse, attrs, data) =>
      v.FileVisit? && v.dev == dev && v.rdev == rdev && v.ino == ino && v.nlink == nlink && v.size == size &&
      v.sparse == sparse && v.attrs == attrs && v.data == data
  }

  // ---- every node is visited

  /** Where the visits of an entry begin. */
  function EntryStart(exclude: bytes -> bool, path: Path, t: Tree, i: nat): nat
    requires t.DirTree? && i <= |t.entries|
  {
    1 + |EntryVisits(exclude, path, t, i)|
  }

  lemma {:induction false} EntryVisitsAt(exclude: bytes -> bool, path: Path, t: Tree, i: nat, n: nat, k: nat)
    requires t.DirTree? && i < n <= |t.entries| && k < |VisitsOfEntry(exclude, path, t.entries[i])|
    ensures var before, vs := |EntryVisits(exclude, path, t, i)|, EntryVisits(exclude, path, t, n);
            before + k < |vs| && vs[before + k] == VisitsOfEntry(exclude, path, t.entries[i])[k]
    decreases n
  {
    hide VisitsOfEntry;
    if i < n - 1 {
      EntryVisitsAt(exclude, path, t, i, n - 1, k);
    }
  }

  lemma {:induction false} EntryVisitsGrow(exclude: bytes -> bool, path: Path, t: Tree, i: nat, n: nat)
    requires t.DirTree? && i < n <= |t.entries|
    ensures |EntryVisits(exclude, path, t, i)| + |VisitsOfEntry(exclude, path, t.entries[i])| <=
            |EntryVisits(exclude, path, t, n)|
    decreases n
  {
    hide VisitsOfEntry;
    if i < n - 1 {
      EntryVisitsGrow(exclude, path, t, i, n - 1);
    }
  }

  /** A node that is not excluded is visited under its own path. */
  lemma {:induction false} NodeVisited(exclude: bytes -> bool, path: Path, t: Tree, at: seq<nat>) returns (k: nat)
    requires Admitted(exclude, path, t, at)
    ensures var vs := Visits(exclude, path, t);
            k < |vs| && vs[k].path == PathAt(path, t, at) && Shows(vs[k], NodeAt(t, at))
    ensures at != [] ==>
              var e := t.entries[at[0]];
              var start := EntryStart(exclude, path, t, at[0]);
              start <= k < start + |VisitsOfEntry(exclude, path, e)|
    decreases |at|
  {
    hide EntryVisits, Join, Shows;
    if at == [] {
      k := 0;
      RootShown(path, t);
    } else {
      var e := t.entries[at[0]];
      var m := NodeVisited(exclude, Join(path, e.name), e.node, at[1..]);
      assert VisitsOfEntry(exclude, path, e) == Visits(exclude, Join(path, e.name), e.node);
      EntryVisitsAt(exclude, path, t, at[0], |t.entries|, m);
      k := EntryStart(exclude, path, t, at[0]) + m;
    }
  }

  lemma {:induction false} RootShown(path: Path, t: Tree)
    ensures Shows(VisitOf(path, t), t)
  {}

  // ---- nothing else is

  /** Every visit is of a node that is not excluded. */
  lemma {:induction false} VisitHasNode(exclude: bytes -> bool, path: Path, t: Tree, k: nat) returns (at: seq<nat>)
    requires k < |Visits(exclude, path, t)|
    ensures Admitted(exclude, path, t, at)
    ensures var v := Visits(exclude, path, t)[k]; v.path == PathAt(path, t, at) && Shows(v, NodeAt(t, at))
    decreases t, Entries(t) + 1
  {
    hide EntryVisits, Join, Shows, Admitted, NodeAt, PathAt;
    if k == 0 {
      at := [];
      RootShown(path, t);
      NoPositions(exclude, path, t);
    } else {
      at := EntryVisitHasNode(exclude, path, t, |t.entries|, k - 1);
    }
  }

  lemma {:induction false} NoPositions(exclude: bytes -> bool, path: Path, t: Tree)
    ensures Admitted(exclude, path, t, []) && NodeAt(t, []) == t && PathAt(path, t, []) == path
  {}

  lemma {:induction false} EntryVisitHasNode(exclude: bytes -> bool, path: Path, t: Tree, n: nat, k: nat)
    returns (at: seq<nat>)
    requires t.DirTree? && n <= |t.entries| && k < |EntryVisits(exclude, path, t, n)|
    ensures Admitted(exclude, path, t, at)
    ensures var v := EntryVisits(exclude, path, t, n)[k]; v.path == PathAt(path, t, at) && Shows(v, NodeAt(t, at))
    decreases t, n
  {
    hide Join, Shows, Visits, Admitted, NodeAt, PathAt;
    var e := t.entries[n - 1];
    var before := |EntryVisits(exclude, path, t, n - 1)|;
    if k < before {
      at := EntryVisitHasNode(exclude, path, t, n - 1, k);
    } else {
      var rest := VisitHasNode(exclude, Join(path, e.name), e.node, k - before);
      at := [n - 1] + rest;
      OneStep(exclude, path, t, n - 1, rest);
    }
  }

  lemma {:induction false} OneStep(exclude: bytes -> bool, path: Path, t: Tree, i: nat, rest: seq<nat>)
    requires t.DirTree? && i < |t.entries|
    ensures var e, at := t.entries[i], [i] + rest;
            && (Admitted(exclude, path, t, at) <==>
                  !exclude(e.name) && !exclude(Join(path, e.name)) &&
                    Admitted(exclude, Join(path, e.name), e.node, rest))
            && NodeAt(t, at) == NodeAt(e.node, rest) && PathAt(path, t, at) == PathAt(Join(path, e.name), e.node, rest)
  {
    assert ([i] + rest)[1..] == rest;
  }

  // ---- the order

  /** A directory comes before what is in it, and its entries come in their order, each with all that is in it. */
  predicate Before(at: seq<nat>, bt: seq<nat>) {
    if at == [] || bt == [] then at == [] && bt != []
    else at[0] < bt[0] || (at[0] == bt[0] && Before(at[1..], bt[1..]))
  }

  lemma {:induction false} VisitedBefore(exclude: bytes -> bool, path: Path, t: Tree, at: seq<nat>, bt: seq<nat>)
    returns (i: nat, j: nat)
    requires Admitted(exclude, path, t, at) && Admitted(exclude, path, t, bt) && Before(at, bt)
    ensures var vs := Visits(exclude, path, t);
            && i < j < |vs|
            && vs[i].path == PathAt(path, t, at) && Shows(vs[i], NodeAt(t, at))
            && vs[j].path == PathAt(path, t, bt) && Shows(vs[j], NodeAt(t, bt))
    decreases |at|, 1
  {
    hide EntryVisits, Join, Shows, VisitsOfEntry;
    if at == [] {
      i := 0;
      j := NodeVisited(exclude, path, t, bt);
      RootShown(path, t);
    } else if at[0] < bt[0] {
      i := NodeVisited(exclude, path, t, at);
      j := NodeVisited(exclude, path, t, bt);
      EntryVisitsGrow(exclude, path, t, at[0], bt[0]);
    } else {
      i, j := BeforeInEntry(exclude, path, t, at, bt);
    }
  }

  lemma {:induction false} BeforeInEntry(exclude: bytes -> bool, path: Path, t: Tree, at: seq<nat>, bt: seq<nat>)
    returns (i: nat, j: nat)
    requires Admitted(exclude, path, t, at) && Admitted(exclude, path, t, bt)
    requires at != [] && bt != [] && at[0] == bt[0] && Before(at[1..], bt[1..])
    ensures var vs := Visits(exclude, path, t);
            && i < j < |vs|
            && vs[i].path == PathAt(path, t, at) && Shows(vs[i], NodeAt(t, at))
            && vs[j].path == PathAt(path, t, bt) && Shows(vs[j], NodeAt(t, bt))
    decreases |at|, 0
  {
    hide EntryVisits, Join, Shows;
    var e, start := t.entries[at[0]], EntryStart(exclude, path, t, at[0]);
    assert Visits(exclude, Join(path, e.name), e.node) == VisitsOfEntry(exclude, path, e);
    var m, n := VisitedBefore(exclude, Join(path, e.name), e.node, at[1..], bt[1..]);
    EntryVisitsAt(exclude, path, t, at[0], |t.entries|, m);
    EntryVisitsAt(exclude, path, t, at[0], |t.entries|, n);
    i, j := start + m, start + n;
  }

  /** One of two different nodes comes first. */
  lemma {:induction false} OneBefore(at: seq<nat>, bt: seq<nat>)
    requires at != bt
    ensures Before(at, bt) || Before(bt, at)
  {
    if at != [] && bt != [] && at[0] == bt[0] {
      assert at == [at[0]] + at[1..] && bt == [bt[0]] + bt[1..];
      OneBefore(at[1..], bt[1..]);
    }
  }

  /** In a proper tree different nodes have different paths. */
  lemma {:induction false} PathsApart(exclude: bytes -> bool, path: Path, t: Tree, at: seq<nat>, bt: seq<nat>)
    requires TreeOk(t) && Admitted(exclude, path, t, at) && Admitted(exclude, path, t, bt) && at != bt
    ensures PathAt(path, t, at) != PathAt(path, t, bt)
  {
    hide TreeOk, Visits, Shows;
    WalkDistinct(exclude, path, t);
    OneBefore(at, bt);
    if Before(at, bt) {
      var i, j := VisitedBefore(exclude, path, t, at, bt);
    } else {
      var i, j := VisitedBefore(exclude, path, t, bt, at);
    }
  }

  /** Visits of one walk are in the order of their nodes. */
  lemma {:induction false} VisitsInOrder(exclude: bytes -> bool, path: Path, t: Tree, i: nat, j: nat)
    returns (at: seq<nat>, bt: seq<nat>)
    requires TreeOk(t) && i < j < |Visits(exclude, path, t)|
    ensures Admitted(exclude, path, t, at) && Admitted(exclude, path, t, bt) && Before(at, bt)
    ensures var vs := Visits(exclude, path, t);
            && vs[i].path == PathAt(path, t, at) && Shows(vs[i], NodeAt(t, at))
            && vs[j].path == PathAt(path, t, bt) && Shows(vs[j], NodeAt(t, bt))
  {
    hide TreeOk, Visits, Shows, Admitted, PathAt, NodeAt;
    WalkDistinct(exclude, path, t);
    at := VisitHasNode(exclude, path, t, i);
    bt := VisitHasNode(exclude, path, t, j);
    if !Before(at, bt) {
      OneBefore(at, bt);
      var k, m := VisitedBefore(exclude, path, t, bt, at);
    }
  }
}
