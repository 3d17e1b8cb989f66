/** Object headers and file footers as dictionaries: how saving writes them (src/oper_save.c) and how
    restoring reads them (src/oper_restore.c). */
module ObjCodec {
  import opened Bytes
  import opened ArchiveItems
  import opened Dico
  import opened Records
  import Format

  // keys of section 0 (src/fsarchiver.h)
  const OBJECTID: u16 := 1
  const PATH: u16 := 2
  const OBJTYPE: u16 := 3
  const HARDLINK_TO: u16 := 5
  const SIZE: u16 := 8
  const MD5SUM: u16 := 13
  const MULTIFILESCOUNT: u16 := 14
  const MULTIFILESOFFSET: u16 := 15
  const FLAGS: u16 := 17
  const FOOT_MD5SUM: u16 := 1

  predicate Key(key: u16) {
    key in {OBJECTID, PATH, OBJTYPE, HARDLINK_TO, SIZE, MD5SUM, MULTIFILESCOUNT, MULTIFILESOFFSET, FLAGS}
  }

  predicate Interpreted(it: DicoItem) {
    it.section == 0 && Key(it.key)
  }

  function TypeNum(t: ObjType): u32 {
    match t
    case DIR => 1
    case SYMLINK => 2
    case HARDLINK => 3
    case CHARDEV => 4
    case BLOCKDEV => 5
    case FIFO => 6
    case SOCKET => 7
    case REGFILEUNIQUE => 8
    case REGFILEMULTI => 9
  }

  function TypeOf(n: u32): Option<ObjType> {
    match n
    case 1 => Some(DIR)
    case 2 => Some(SYMLINK)
    case 3 => Some(HARDLINK)
    case 4 => Some(CHARDEV)
    case 5 => Some(BLOCKDEV)
    case 6 => Some(FIFO)
    case 7 => Some(SOCKET)
    case 8 => Some(REGFILEUNIQUE)
    case 9 => Some(REGFILEMULTI)
    case _ => None
  }

  function LinkItems(h: ObjHead): seq<DicoItem> {
    if h.link.Some? then [StringItem(0, HARDLINK_TO, h.link.value)] else []
  }

  function FlagItems(h: ObjHead): seq<DicoItem> {
    if h.sparse then [U64Item(0, FLAGS, 1)] else []
  }

  function Md5Items(h: ObjHead): seq<DicoItem> {
    if h.md5.Some? then [DataItem(0, MD5SUM, h.md5.value)] else []
  }

  function CountItems(h: ObjHead): seq<DicoItem> {
    if h.multiCount.Some? then [U32Item(0, MULTIFILESCOUNT, h.multiCount.value)] else []
  }

  function OffsetItems(h: ObjHead): seq<DicoItem> {
    if h.multiOffset.Some? then [U32Item(0, MULTIFILESOFFSET, h.multiOffset.value)] else []
  }

  function TypeItems(h: ObjHead): seq<DicoItem> {
    [U32Item(0, OBJTYPE, TypeNum(h.objtype))]
  }

  function FirstItems(h: ObjHead): seq<DicoItem> {
    [U64Item(0, OBJECTID, h.id), StringItem(0, PATH, h.path), U64Item(0, SIZE, h.size)]
  }

  /** Standard attributes come first; extended ones have sections of their own. */
  function StdCount(attrs: Attrs): (n: nat)
    ensures n <= |attrs|
  {
    if attrs == [] || attrs[0].section != 0 then 0 else 1 + StdCount(attrs[1..])
  }

  function StdAttrs(h: ObjHead): seq<DicoItem> {
    h.attrs[..StdCount(h.attrs)]
  }

  function ExtraAttrs(h: ObjHead): seq<DicoItem> {
    h.attrs[StdCount(h.attrs)..]
  }

  /** The items in the order in which they are added. */
  function EncHead(h: ObjHead): seq<DicoItem> {
    FirstItems(h) + (StdAttrs(h) + (LinkItems(h) + (TypeItems(h) + (FlagItems(h) + (ExtraAttrs(h) +
    (Md5Items(h) + (CountItems(h) + OffsetItems(h))))))))
  }

  // ---- reading

  function Others(d: seq<DicoItem>): seq<DicoItem> {
    if d == [] then [] else (if Interpreted(d[0]) then [] else [d[0]]) + Others(d[1..])
  }

  function GetData(d: seq<DicoItem>, key: u16, maxsize: u16): Option<bytes> {
    match Get(d, 0, key, maxsize)
    case Got(s) => Some(s)
    case _ => None
  }

  function GetString(d: seq<DicoItem>, key: u16): Option<bytes> {
    match GetData(d, key, PATH_MAX)
    case Some(s) => Some(CStr(s))
    case None => None
  }

  /** Path, type and size must be there; the object id is not looked at when restoring. */
  function DecHead(d: seq<DicoItem>): Option<ObjHead> {
    var path, objtype, size := GetString(d, PATH), GetU32(d, 0, OBJTYPE), GetU64(d, 0, SIZE);
    var id, flags := GetU64(d, 0, OBJECTID), GetU64(d, 0, FLAGS);
    if path.None? || objtype.None? || size.None? || TypeOf(objtype.value).None? then None
    else Some(ObjHead(if id.Some? then id.value else 0, TypeOf(objtype.value).value, path.value, size.value, Others(d),
                      GetString(d, HARDLINK_TO),
                      flags.Some? && flags.value % 2 == 1, GetData(d, MD5SUM, 16),
                      GetU32(d, 0, MULTIFILESCOUNT), GetU32(d, 0, MULTIFILESOFFSET)))
  }

  /** Without a path, a size or a known type there is no object. */
  lemma {:induction false} NoObject(d: seq<DicoItem>)
    ensures (forall i :: 0 <= i < |d| ==> !(d[i].section == 0 && d[i].key == PATH)) ==> DecHead(d) == None
    ensures (forall i :: 0 <= i < |d| ==> !(d[i].section == 0 && d[i].key == SIZE)) ==> DecHead(d) == None
    ensures (forall i :: 0 <= i < |d| ==> !(d[i].section == 0 && d[i].key == OBJTYPE)) ==> DecHead(d) == None
    ensures GetU32(d, 0, OBJTYPE).Some? && !(1 <= GetU32(d, 0, OBJTYPE).value <= 9) ==> DecHead(d) == None
    ensures DecHead(d).Some? ==>
              (DecHead(d).value.sparse <==> GetU64(d, 0, FLAGS).Some? && GetU64(d, 0, FLAGS).value % 2 == 1)
  {
    hide Others;
  }

  predicate StringOk(s: bytes) {
    0 !in s && |s| < PATH_MAX
  }

  /** What a dictionary can hold: strings without zero bytes that fit the path buffers, 16-byte digests,
      and attributes under keys of their own. */
  predicate HeadOk(h: ObjHead) {
    && StringOk(h.path) && (h.link.Some? ==> StringOk(h.link.value)) && (h.md5.Some? ==> |h.md5.value| <= 16)
    && (forall i :: 0 <= i < |h.attrs| ==> !Interpreted(h.attrs[i]))
    && Format.Printable(EncHead(h)) && |EncHead(h)| < 0x1_0000
  }

  // ---- round trip

  /** The data of the first item with this key, in section 0. */
  function Find(d: seq<DicoItem>, key: u16): Option<bytes> {
    if d == [] then None
    else if d[0].section == 0 && d[0].key == key then Some(d[0].data)
    else Find(d[1..], key)
  }

  lemma {:induction false} FindIsIndex(d: seq<DicoItem>, key: u16)
    ensures Find(d, key) == var i := IndexOf(d, 0, key); if i < |d| then Some(d[i].data) else None
  {
    if d != [] {
      FindIsIndex(d[1..], key);
    }
  }

  lemma {:induction false} FindConcat(a: seq<DicoItem>, b: seq<DicoItem>, key: u16)
    ensures Find(a + b, key) == if Find(a, key).Some? then Find(a, key) else Find(b, key)
  {
    if a == [] {
      assert a + b == b;
    } else {
      FindConcat(a[1..], b, key);
      assert (a + b)[1..] == a[1..] + b;
    }
  }

  lemma {:induction false} OthersConcat(a: seq<DicoItem>, b: seq<DicoItem>)
    ensures Others(a + b) == Others(a) + Others(b)
  {
    hide Interpreted;
    if a == [] {
      assert a + b == b;
    } else {
      OthersConcat(a[1..], b);
      assert (a + b)[1..] == a[1..] + b;
    }
  }

  lemma {:induction false} NoneInterpreted(d: seq<DicoItem>)
    requires forall i :: 0 <= i < |d| ==> !Interpreted(d[i])
    ensures Others(d) == d
    ensures forall key :: Key(key) ==> Find(d, key) == None
  {
    if d != [] {
      NoneInterpreted(d[1..]);
    }
  }

  function OneItem(items: seq<DicoItem>): Option<bytes>
    requires |items| <= 1
  {
    if items == [] then None else Some(items[0].data)
  }

  function AnswerOf(h: ObjHead, key: u16): Option<bytes> {
    if key == OBJECTID then Some(Le64(h.id)) else if key == PATH then Some(h.path + [0])
    else if key == SIZE then Some(Le64(h.size)) else if key == OBJTYPE then Some(Le32(TypeNum(h.objtype)))
    else if key == HARDLINK_TO then OneItem(LinkItems(h)) else if key == FLAGS then OneItem(FlagItems(h))
    else if key == MD5SUM then OneItem(Md5Items(h)) else if key == MULTIFILESCOUNT then OneItem(CountItems(h))
    else OneItem(OffsetItems(h))
  }

  /** Which part of the dictionary answers for which key. */
  lemma {:induction false} FindInHead(h: ObjHead, key: u16)
    requires HeadOk(h) && Key(key)
    ensures Find(EncHead(h), key) == AnswerOf(h, key)
  {
    hide Find, StdAttrs, ExtraAttrs, HeadOk, Key, FirstItems, TypeItems, LinkItems, FlagItems, Md5Items;
    hide CountItems, OffsetItems;
    var g := CountItems(h) + OffsetItems(h);
    var f := Md5Items(h) + g;
    var e := ExtraAttrs(h) + f;
    var d := FlagItems(h) + e;
    var c := TypeItems(h) + d;
    var b := LinkItems(h) + c;
    var a := StdAttrs(h) + b;
    FindConcat(FirstItems(h), a, key);
    FindConcat(StdAttrs(h), b, key);
    FindConcat(LinkItems(h), c, key);
    FindConcat(TypeItems(h), d, key);
    FindConcat(FlagItems(h), e, key);
    FindConcat(ExtraAttrs(h), f, key);
    FindConcat(Md5Items(h), g, key);
    FindConcat(CountItems(h), OffsetItems(h), key);
    FindAttrs(h, key);
    FindFirst(h, key);
    FindParts(h, key);
    KeyIsOne(key);
  }

  lemma {:induction false} KeyIsOne(key: u16)
    requires Key(key)
    ensures key == OBJECTID || key == PATH || key == SIZE || key == OBJTYPE || key == HARDLINK_TO || key == FLAGS ||
            key == MD5SUM || key == MULTIFILESCOUNT || key == MULTIFILESOFFSET
  {}

  lemma {:induction false} FindAttrs(h: ObjHead, key: u16)
    requires HeadOk(h) && Key(key)
    ensures Find(StdAttrs(h), key) == None && Find(ExtraAttrs(h), key) == None
  {
    hide Interpreted, Key, Find, Others, EncHead;
    NoneInterpreted(StdAttrs(h));
    NoneInterpreted(ExtraAttrs(h));
  }

  lemma {:induction false} FindOne(items: seq<DicoItem>, key: u16)
    requires |items| <= 1
    ensures Find(items, key) ==
            if items != [] && items[0].section == 0 && items[0].key == key then Some(items[0].data) else None
  {
    if items != [] {
      assert items[1..] == [];
    }
  }

  lemma {:induction false} FindParts(h: ObjHead, key: u16)
    ensures Find(LinkItems(h), key) == if key == HARDLINK_TO then OneItem(LinkItems(h)) else None
    ensures Find(TypeItems(h), key) == if key == OBJTYPE then Some(Le32(TypeNum(h.objtype))) else None
    ensures Find(FlagItems(h), key) == if key == FLAGS then OneItem(FlagItems(h)) else None
    ensures Find(Md5Items(h), key) == if key == MD5SUM then OneItem(Md5Items(h)) else None
    ensures Find(CountItems(h), key) == if key == MULTIFILESCOUNT then OneItem(CountItems(h)) else None
    ensures Find(OffsetItems(h), key) == if key == MULTIFILESOFFSET then OneItem(OffsetItems(h)) else None
  {
    hide Find;
    FindOne(LinkItems(h), key);
    FindOne(TypeItems(h), key);
    FindOne(FlagItems(h), key);
    FindOne(Md5Items(h), key);
    FindOne(CountItems(h), key);
    FindOne(OffsetItems(h), key);
  }

  lemma {:induction false} FindFirst(h: ObjHead, key: u16)
    ensures Find(FirstItems(h), key) ==
            if key == OBJECTID then Some(Le64(h.id)) else if key == PATH then Some(h.path + [0])
            else if key == SIZE then Some(Le64(h.size)) else None
  {
    var f := FirstItems(h);
    assert [f[2]][1..] == [] && Find([f[2]], key) == if key == SIZE then Some(f[2].data) else None;
    assert [f[1], f[2]][1..] == [f[2]] && f[1..] == [f[1], f[2]];
    assert Find(f[1..], key) == if key == PATH then Some(f[1].data) else Find([f[2]], key);
  }

  lemma {:induction false} OthersOfOne(it: DicoItem)
    ensures Others([it]) == if Interpreted(it) then [] else [it]
  {
    assert [it][1..] == [];
  }

  lemma {:induction false} PartsInterpreted(h: ObjHead)
    ensures Others(LinkItems(h)) == [] && Others(FlagItems(h)) == [] && Others(Md5Items(h)) == []
    ensures Others(CountItems(h)) == [] && Others(OffsetItems(h)) == [] && Others(TypeItems(h)) == []
  {}

  lemma {:induction false} OthersOfFirst(h: ObjHead)
    ensures Others(FirstItems(h)) == []
  {
    hide Others;
    var f := FirstItems(h);
    OthersOfOne(f[0]);
    OthersOfOne(f[1]);
    OthersOfOne(f[2]);
    OthersConcat([f[0]], [f[1]]);
    OthersConcat([f[0]] + [f[1]], [f[2]]);
    assert f == [f[0]] + [f[1]] + [f[2]];
  }

  lemma {:induction false} OthersOfAttrs(h: ObjHead)
    requires HeadOk(h)
    ensures Others(StdAttrs(h)) == StdAttrs(h) && Others(ExtraAttrs(h)) == ExtraAttrs(h)
    ensures StdAttrs(h) + ExtraAttrs(h) == h.attrs
  {
    hide Interpreted, Others, Find, EncHead;
    NoneInterpreted(StdAttrs(h));
    NoneInterpreted(ExtraAttrs(h));
  }

  lemma {:induction false} OthersInHead(h: ObjHead)
    requires HeadOk(h)
    ensures Others(EncHead(h)) == h.attrs
  {
    hide Others, FirstItems, StdAttrs, ExtraAttrs, TypeItems, LinkItems, FlagItems, Md5Items, CountItems;
    hide OffsetItems, HeadOk;
    var g := CountItems(h) + OffsetItems(h);
    var f := Md5Items(h) + g;
    var e := ExtraAttrs(h) + f;
    var d := FlagItems(h) + e;
    var c := TypeItems(h) + d;
    var b := LinkItems(h) + c;
    var a := StdAttrs(h) + b;
    OthersConcat(FirstItems(h), a);
    OthersConcat(StdAttrs(h), b);
    OthersConcat(LinkItems(h), c);
    OthersConcat(TypeItems(h), d);
    OthersConcat(FlagItems(h), e);
    OthersConcat(ExtraAttrs(h), f);
    OthersConcat(Md5Items(h), g);
    OthersConcat(CountItems(h), OffsetItems(h));
    OthersOfFirst(h);
    OthersOfAttrs(h);
    PartsInterpreted(h);
  }

  /** What the typed getters make of the first item with a key. */
  lemma {:induction false} GettersFind(d: seq<DicoItem>, key: u16)
    requires d != []
    ensures forall max: u16 :: max >= 1 ==>
              GetData(d, key, max) == if Find(d, key).Some? && |Find(d, key).value| <= max then Find(d, key) else None
    ensures Find(d, key) == None ==> GetU32(d, 0, key) == None && GetU64(d, 0, key) == None
    ensures forall x: u32 :: Find(d, key) == Some(Le32(x)) ==> GetU32(d, 0, key) == Some(x)
    ensures forall x: u64 :: Find(d, key) == Some(Le64(x)) ==> GetU64(d, 0, key) == Some(x)
  {
    FindIsIndex(d, key);
    forall x: u32 ensures De32(Le32(x)) == x { DecodeEncode32(x); }
    forall x: u64 ensures De64(Le64(x)) == x { DecodeEncode64(x); }
  }

  /** Restoring reads from an object header exactly what saving wrote into it. */
  lemma {:induction false} HeadRoundTrip(h: ObjHead)
    requires HeadOk(h)
    ensures DecHead(EncHead(h)) == Some(h)
  {
    hide Find, Get, GetU32, GetU64, GetData, EncHead, Others, De32, De64, Le32, Le64, Format.Printable;
    var d := EncHead(h);
    HeadNotEmpty(h);
    OthersInHead(h);
    StringsFound(h);
    NumbersFound(h);
  }

  lemma {:induction false} HeadNotEmpty(h: ObjHead)
    ensures EncHead(h) != []
  {}

  lemma {:induction false} StringsFound(h: ObjHead)
    requires HeadOk(h)
    ensures GetString(EncHead(h), PATH) == Some(h.path) && GetString(EncHead(h), HARDLINK_TO) == h.link
    ensures GetData(EncHead(h), MD5SUM, 16) == h.md5
  {
    hide Find, Get, EncHead, GetData, Format.Printable;
    HeadNotEmpty(h);
    FindInHead(h, PATH);
    GettersFind(EncHead(h), PATH);
    CStrOf(h.path);
    FindInHead(h, HARDLINK_TO);
    GettersFind(EncHead(h), HARDLINK_TO);
    if h.link.Some? {
      CStrOf(h.link.value);
    }
    FindInHead(h, MD5SUM);
    GettersFind(EncHead(h), MD5SUM);
  }

  lemma {:induction false} NumbersFound(h: ObjHead)
    requires HeadOk(h)
    ensures GetU64(EncHead(h), 0, OBJECTID) == Some(h.id)
    ensures GetU64(EncHead(h), 0, SIZE) == Some(h.size) && GetU32(EncHead(h), 0, OBJTYPE) == Some(TypeNum(h.objtype))
    ensures GetU64(EncHead(h), 0, FLAGS) == if h.sparse then Some(1) else None
    ensures GetU32(EncHead(h), 0, MULTIFILESCOUNT) == h.multiCount &&
            GetU32(EncHead(h), 0, MULTIFILESOFFSET) == h.multiOffset
  {
    hide Find, Get, EncHead, GetData, GetU32, GetU64, Le32, Le64, Format.Printable;
    HeadNotEmpty(h);
    FindInHead(h, OBJECTID);
    GettersFind(EncHead(h), OBJECTID);
    FindInHead(h, SIZE);
    GettersFind(EncHead(h), SIZE);
    FindInHead(h, OBJTYPE);
    GettersFind(EncHead(h), OBJTYPE);
    FindInHead(h, FLAGS);
    GettersFind(EncHead(h), FLAGS);
    FindInHead(h, MULTIFILESCOUNT);
    GettersFind(EncHead(h), MULTIFILESCOUNT);
    FindInHead(h, MULTIFILESOFFSET);
    GettersFind(EncHead(h), MULTIFILESOFFSET);
  }

  // ---- whole records

  predicate RecOk(rec: Rec) {
    match rec
    case Obj(h, _) => HeadOk(h)
    case Blk(_, data, _) => 0 < |data| <= MAX_BLKSIZE
    case FileFoot(md5, _) => |md5| <= 16
    case Other(magic, _) => magic !in {OBJT, FILF, VOLF, BLKH}
  }

  function FootDico(md5: bytes): seq<DicoItem> {
    [DataItem(0, FOOT_MD5SUM, md5)]
  }

  /** What is added to the queue for a record: blocks in the clear. */
  function EncRec(rec: Rec): Item
    requires RecOk(rec)
  {
    match rec
    case Obj(h, fsid) => HeaderItem(Header(OBJT, fsid, EncHead(h)))
    case Blk(offset, data, fsid) => BlockItem(Block(data, |data|, offset, 0, 0, 0, 0, 0, fsid))
    case FileFoot(md5, fsid) => HeaderItem(Header(FILF, fsid, FootDico(md5)))
    case Other(magic, fsid) => HeaderItem(Header(magic, fsid, []))
  }

  /** What restoring takes out of the queue. */
  function DecRec(item: Item): Option<Rec> {
    match item
    case BlockItem(b) => Some(Blk(b.offset, b.data, b.fsid))
    case HeaderItem(Header(magic, fsid, d)) =>
      if magic == OBJT then
        match DecHead(d)
        case Some(h) => Some(Obj(h, fsid))
        case None => None
      else if magic == FILF then
        match GetData(d, FOOT_MD5SUM, 16)
        case Some(md5) => Some(FileFoot(md5, fsid))
        case None => None
      else Some(Other(magic, fsid))
  }

  lemma {:induction false} RecRoundTrip(rec: Rec)
    requires RecOk(rec)
    ensures DecRec(EncRec(rec)) == Some(rec)
  {
    hide EncHead, DecHead;
    match rec
    case Obj(h, _) => HeadRoundTrip(h);
    case FileFoot(md5, _) => GetItemAt(FootDico(md5), 0);
    case _ =>
  }
}
