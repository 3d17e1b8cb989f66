/** The file system that is restored to: names, inodes and the calls that change them. */
module FileSystem {
  import opened Bytes
  import opened Records

  datatype Inode = Inode(content: bytes, attrs: Attrs) | Freed
  datatype Node = FileNode(ino: nat) | OtherNode(objtype: ObjType, attrs: Attrs)
  datatype FS = FS(names: map<Path, Node>, inodes: seq<Inode>)

  predicate IsFile(fs: FS, path: Path) {
    path in fs.names && fs.names[path].FileNode? && fs.names[path].ino < |fs.inodes| &&
      fs.inodes[fs.names[path].ino].Inode?
  }

  predicate FsOk(fs: FS) {
    forall p :: p in fs.names && fs.names[p].FileNode? ==> IsFile(fs, p)
  }

  predicate IsDir(fs: FS, path: Path) {
    path in fs.names && fs.names[path].OtherNode? && fs.names[path].objtype == DIR
  }

  /** Something that is no directory stands where a directory above the path should be. */
  predicate Blocked(fs: FS, path: Path) {
    exists k :: 0 < k < |path| && path[k] == SLASH && path[..k] in fs.names && !IsDir(fs, path[..k])
  }

  function InodeOf(fs: FS, path: Path): Inode
    requires IsFile(fs, path)
  {
    fs.inodes[fs.names[path].ino]
  }

  /** mkdir, if nothing is there yet: a directory with default attributes. */
  function Mkdir(fs: FS, d: Path): FS {
    if d !in fs.names && !Blocked(fs, d) then fs.(names := fs.names[d := OtherNode(DIR, [])]) else fs
  }

  /** The directories above a path that end in front of one of its first n bytes. */
  function ParentsUpTo(fs: FS, path: Path, n: nat): FS
    requires n <= |path|
  {
    if n == 0 then fs
    else
      var above := ParentsUpTo(fs, path, n - 1);
      if n > 1 && path[n - 1] == SLASH then Mkdir(above, path[..n - 1]) else above
  }

  /** All directories above a path, made as far as they are missing. */
  function WithParents(fs: FS, path: Path): FS {
    ParentsUpTo(fs, path, |path|)
  }

  method MkdirRecursive(fs: FS, path: Path) returns (r: FS)
    ensures r == WithParents(fs, path)
  {
    r := fs;
    for pos := 0 to |path|
      invariant r == ParentsUpTo(fs, path, pos)
    {
      if pos > 0 && path[pos] == SLASH {
        r := Mkdir(r, path[..pos]);
      }
    }
  }

  lemma {:induction false} BlockedBelow(fs: FS, path: Path, k: nat)
    requires k <= |path| && Blocked(fs, path[..k])
    ensures Blocked(fs, path)
  {
    var j :| 0 < j < k && path[..k][j] == SLASH && path[..k][..j] in fs.names && !IsDir(fs, path[..k][..j]);
    assert path[..k][..j] == path[..j];
  }

  predicate MadeUpTo(fs: FS, f: FS, path: Path, n: nat)
    requires n <= |path|
  {
    && f.inodes == fs.inodes
    && (forall p :: p in fs.names ==> p in f.names && f.names[p] == fs.names[p])
    && (forall p :: p in f.names && p !in fs.names ==> Ancestor(p, path) && f.names[p] == OtherNode(DIR, []))
    && (!Blocked(fs, path) ==> !Blocked(f, path) && forall k :: 0 < k < n && path[k] == SLASH ==> path[..k] in f.names)
  }

  lemma {:induction false} MkdirMakes(fs: FS, f: FS, path: Path, n: nat)
    requires 1 < n <= |path| && path[n - 1] == SLASH && MadeUpTo(fs, f, path, n - 1)
    ensures MadeUpTo(fs, Mkdir(f, path[..n - 1]), path, n)
  {
    var d := path[..n - 1];
    var g := Mkdir(f, d);
    assert Ancestor(d, path);
    if !Blocked(fs, path) {
      if Blocked(f, d) {
        BlockedBelow(f, path, n - 1);
      }
      forall k | 0 < k < |path| && path[k] == SLASH && path[..k] in g.names ensures IsDir(g, path[..k]) {
        assert path[..k] in f.names ==> IsDir(f, path[..k]);
      }
    }
  }

  lemma {:induction false} ParentsMadeUpTo(fs: FS, path: Path, n: nat)
    requires n <= |path|
    ensures MadeUpTo(fs, ParentsUpTo(fs, path, n), path, n)
  {
    hide MadeUpTo, Mkdir, Blocked;
    if n == 0 {
      NothingMade(fs, path);
    } else {
      ParentsMadeUpTo(fs, path, n - 1);
      if n > 1 && path[n - 1] == SLASH {
        MkdirMakes(fs, ParentsUpTo(fs, path, n - 1), path, n);
      } else {
        MadeOneMore(fs, ParentsUpTo(fs, path, n - 1), path, n);
      }
    }
  }

  lemma {:induction false} NothingMade(fs: FS, path: Path)
    ensures MadeUpTo(fs, fs, path, 0)
  {}

  lemma {:induction false} MadeOneMore(fs: FS, f: FS, path: Path, n: nat)
    requires 1 <= n <= |path| && MadeUpTo(fs, f, path, n - 1) && (n == 1 || path[n - 1] != SLASH)
    ensures MadeUpTo(fs, f, path, n)
  {}

  /** Making the directories above a path changes nothing else, and nothing that is there. */
  lemma {:induction false} ParentsMade(fs: FS, path: Path)
    ensures var f := WithParents(fs, path);
            && f.inodes == fs.inodes && (path in f.names <==> path in fs.names)
            && (forall p :: p in fs.names ==> p in f.names && f.names[p] == fs.names[p])
            && (forall p :: p in f.names && p !in fs.names ==> Ancestor(p, path) && f.names[p] == OtherNode(DIR, []))
            && (!Blocked(fs, path) ==> !Blocked(f, path) && forall d :: Ancestor(d, path) ==> IsDir(f, d))
    ensures FsOk(fs) ==> FsOk(WithParents(fs, path))
    ensures forall p :: IsFile(fs, p) <==> IsFile(WithParents(fs, path), p)
  {
    ParentsMadeUpTo(fs, path, |path|);
    var f := WithParents(fs, path);
    if !Blocked(fs, path) {
      forall d | Ancestor(d, path) ensures IsDir(f, d) {
        assert path[..|d|] in f.names;
      }
    }
  }

  /** open with O_CREAT and O_TRUNC: a new empty file, or the old one emptied. */
  function Open(fs: FS, path: Path): Option<FS> {
    if Blocked(fs, path) then None
    else if path !in fs.names then
      Some(FS(fs.names[path := FileNode(|fs.inodes|)], fs.inodes + [Inode([], [])]))
    else if IsFile(fs, path) then Some(SetContent(fs, path, []))
    else None
  }

  function SetContent(fs: FS, path: Path, content: bytes): FS
    requires IsFile(fs, path)
  {
    fs.(inodes := fs.inodes[fs.names[path].ino := Inode(content, InodeOf(fs, path).attrs)])
  }

  function SetAttrs(fs: FS, path: Path, attrs: Attrs): FS {
    if IsFile(fs, path) then
      fs.(inodes := fs.inodes[fs.names[path].ino := Inode(InodeOf(fs, path).content, attrs)])
    else if path in fs.names && fs.names[path].OtherNode? then
      fs.(names := fs.names[path := fs.names[path].(attrs := attrs)])
    else fs
  }

  /** The inode goes with its last name; directories cannot be unlinked. */
  function Unlink(fs: FS, path: Path): FS {
    if path !in fs.names || (fs.names[path].OtherNode? && fs.names[path].objtype == DIR) then fs
    else
      var names := fs.names - {path};
      if fs.names[path].FileNode? && fs.names[path].ino < |fs.inodes| && fs.names[path] !in names.Values
      then FS(names, fs.inodes[fs.names[path].ino := Freed])
      else FS(names, fs.inodes)
  }

  function Link(fs: FS, target: Path, path: Path): Option<FS> {
    if !Blocked(fs, path) && target in fs.names && path !in fs.names &&
      !(fs.names[target].OtherNode? && fs.names[target].objtype == DIR)
    then Some(fs.(names := fs.names[path := fs.names[target]]))
    else None
  }

  /** A directory may exist already; anything else may not. */
  function Make(fs: FS, path: Path, objtype: ObjType): Option<FS> {
    if Blocked(fs, path) then None
    else if path !in fs.names then Some(fs.(names := fs.names[path := OtherNode(objtype, [])]))
    else if objtype == DIR then Some(fs)
    else None
  }
}
