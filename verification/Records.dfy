/** What saving puts into the queue and restoring takes out of it, with the dictionaries of object
    headers read as records (src/oper_save.c, src/oper_restore.c). */
module Records {
  import opened Bytes
  import opened ArchiveItems
  import Dico

  type Path = bytes

  const SLASH: byte := 47

  /** A directory above a path, below the directory that all paths start from. */
  predicate Ancestor(d: Path, path: Path) {
    0 < |d| < |path| && path[..|d|] == d && path[|d|] == SLASH
  }

  datatype ObjType = DIR | SYMLINK | HARDLINK | CHARDEV | BLOCKDEV | FIFO | SOCKET | REGFILEUNIQUE | REGFILEMULTI

  /** Owner, mode, times, extended attributes, link targets and device numbers are only carried along. */
  type Attrs = seq<Dico.DicoItem>

  datatype ObjHead = ObjHead(
    id: u64,                    // counts the objects
    objtype: ObjType,
    path: Path,
    size: u64,
    attrs: Attrs,
    link: Option<Path>,         // hard links: the first path seen for the inode
    sparse: bool,
    md5: Option<bytes>,         // packed files: digest of the contents
    multiCount: Option<u32>,    // packed files: how many share the block
    multiOffset: Option<u32>)   // packed files: where the contents start in the block

  datatype Rec =
    | Obj(head: ObjHead, fsid: u16)
    | Blk(offset: u64, data: bytes, fsid: u16)
    | FileFoot(md5: bytes, fsid: u16)
    | Other(magic: Magic, fsid: u16) // any other header; DATF ends a filesystem

  const PATH_MAX: u16 := 4096
  const MAX_SMALLFILECOUNT := 512
  const MAX_SMALLFILESIZE := 131072
}
