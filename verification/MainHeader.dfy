/** The header of the whole archive, and the split sizes that the program accepts (src/oper_save.c,
    src/fsarchiver.c). */
module MainHeader {
  import opened Bytes
  import opened ArchiveItems
  import opened Dico
  import opened Format
  import opened Volumes
  import opened VolumeChain
  import opened ArchWriter
  import opened Sums
  import Reader
  import Archive
  import Fletcher

  // keys of the main header (src/fsarchiver.h)
  const FILEFORMATVER: u16 := 1
  const PROGVERCREAT: u16 := 2
  const ARCHIVEID: u16 := 3
  const CREATTIME: u16 := 4
  const ARCHLABEL: u16 := 5
  const ARCHTYPE: u16 := 6
  const FSCOUNT: u16 := 7
  const COMPRESSALGO: u16 := 8
  const COMPRESSLEVEL: u16 := 9
  const ENCRYPTALGO: u16 := 10
  const CLEARMD5: u16 := 11
  const CRYPTBUF: u16 := 12
  const FSACOMPLEVEL: u16 := 13
  const MINFSAVERSION: u16 := 14
  const HASDIRSINFOHEAD: u16 := 15

  const MAX_LABELLEN: u16 := 512
  const CHECKPASSBUF_SIZE := 4096

  /** The digest of a random buffer and the buffer encrypted, to recognise the password. */
  datatype PassCheck = PassCheck(md5: bytes, crypt: bytes)

  datatype Info = Info(
    archid: u32,
    name: bytes,                 // the label given by the user
    creattime: u64,
    archtype: u32,
    compalgo: u32,
    complevel: u32,
    cryptalgo: u32,
    fsacomp: u32,
    minversion: u64,
    fscount: Option<u64>,        // archives of filesystems only
    check: Option<PassCheck>)    // encrypted archives only

  predicate InfoOk(m: Info) {
    m.archid != 0 && |m.name| < MAX_LABELLEN &&
    (m.check.Some? ==> |m.check.value.md5| == 16 && |m.check.value.crypt| == CHECKPASSBUF_SIZE)
  }

  function CountItems(m: Info): seq<DicoItem> {
    if m.fscount.Some? then [U64Item(0, FSCOUNT, m.fscount.value)] else []
  }

  function CheckItems(m: Info): seq<DicoItem> {
    if m.check.Some?
    then [DataItem(0, CLEARMD5, m.check.value.md5), DataItem(0, CRYPTBUF, m.check.value.crypt)]
    else []
  }

  function FixedItems(m: Info): seq<DicoItem> {
    [StringItem(0, FILEFORMATVER, Reader.FMT_002), StringItem(0, PROGVERCREAT, VERSION),
     StringItem(0, ARCHLABEL, m.name),
     U64Item(0, CREATTIME, m.creattime), U32Item(0, ARCHIVEID, m.archid), U32Item(0, ARCHTYPE, m.archtype),
     U32Item(0, COMPRESSALGO, m.compalgo), U32Item(0, COMPRESSLEVEL, m.complevel), U32Item(0, ENCRYPTALGO, m.cryptalgo),
     U32Item(0, FSACOMPLEVEL, m.fsacomp), U32Item(0, HASDIRSINFOHEAD, 1), U64Item(0, MINFSAVERSION, m.minversion)]
  }

  function MainDico(m: Info): seq<DicoItem> {
    FixedItems(m) + CountItems(m) + CheckItems(m)
  }

  function MainOf(m: Info): Header {
    Header(MAIN, FILESYSID_NULL, MainDico(m))
  }

  lemma {:induction false} ItemsUpTo(d: seq<DicoItem>, max: nat)
    requires forall i :: 0 <= i < |d| ==> Storable(d[i]) && |d[i].data| <= max
    ensures |EncItems(d)| <= (6 + max) * |d|
  {
    if d != [] {
      ItemsUpTo(d[1..], max);
      assert (6 + max) * |d| == (6 + max) * (|d| - 1) + 6 + max;
    }
  }

  /** The order in which the keys are written. */
  function Rank(key: u16): nat {
    match key
    case 1 => 0
    case 2 => 1
    case 5 => 2
    case 4 => 3
    case 3 => 4
    case 6 => 5
    case 8 => 6
    case 9 => 7
    case 10 => 8
    case 13 => 9
    case 15 => 10
    case 14 => 11
    case 7 => 12
    case 11 => 13
    case _ => 14
  }

  predicate Ranked(d: seq<DicoItem>, low: nat, high: nat) {
    && (forall i :: 0 <= i < |d| ==> |d[i].data| <= 4096 && low <= Rank(d[i].key) < high)
    && (forall i, j :: 0 <= i < j < |d| ==> Rank(d[i].key) < Rank(d[j].key))
  }

  lemma {:induction false} RankedConcat(a: seq<DicoItem>, b: seq<DicoItem>, low: nat, mid: nat, high: nat)
    requires Ranked(a, low, mid) && Ranked(b, mid, high) && low <= mid <= high
    ensures Ranked(a + b, low, high)
  {
    hide Rank;
    var d := a + b;
    assert forall i :: 0 <= i < |a| ==> d[i] == a[i];
    assert forall i :: |a| <= i < |d| ==> d[i] == b[i - |a|];
  }

  lemma {:induction false} PartsRanked(m: Info)
    requires InfoOk(m)
    ensures Ranked(FixedItems(m), 0, 12) && Ranked(CountItems(m), 12, 13) && Ranked(CheckItems(m), 13, 15)
  {
    var d := FixedItems(m);
    assert forall i :: 0 <= i < |d| ==> Rank(d[i].key) == i && |d[i].data| <= 4096;
  }

  lemma {:induction false} MainDicoOk(m: Info)
    requires InfoOk(m)
    ensures WellFormed(MainDico(m)) && |MainDico(m)| <= 15
    ensures forall i :: 0 <= i < |MainDico(m)| ==> |MainDico(m)[i].data| <= 4096
  {
    PartsRanked(m);
    hide FixedItems, CountItems, CheckItems, Rank;
    RankedConcat(FixedItems(m), CountItems(m), 0, 12, 13);
    RankedConcat(FixedItems(m) + CountItems(m), CheckItems(m), 0, 13, 15);
    LengthOk(m);
  }

  lemma {:induction false} LengthOk(m: Info)
    ensures |MainDico(m)| <= 15
  {}

  /** The main header is a few kilobytes long, and carries the archive id. */
  lemma {:induction false} MainSmall(m: Info)
    requires InfoOk(m)
    ensures ItemOk(HeaderItem(MainOf(m))) && |EncItemOf(m.archid, HeaderItem(MainOf(m)))| <= 0x1_0000
    ensures GetU32(MainDico(m), 0, Reader.MH_ARCHIVEID) == Some(m.archid)
  {
    hide GetU32, WellFormed, Fletcher.Checksum;
    MainDicoOk(m);
    ItemsUpTo(MainDico(m), 4096);
    ShortPrintable(MainDico(m));
    UniqueMain(m);
    GetItemAt(MainDico(m), 4);
  }

  lemma {:induction false} UniqueMain(m: Info)
    requires WellFormed(MainDico(m))
    ensures UniqueKeys(MainDico(m)) && |MainDico(m)| > 4
    ensures MainDico(m)[4] == U32Item(0, ARCHIVEID, m.archid)
  {}

  /** Every field is found under its key, as it was given. */
  lemma {:induction false} MainFields(m: Info)
    requires InfoOk(m)
    ensures var d := MainDico(m);
            && Get(d, 0, FILEFORMATVER, 100) == Got(Reader.FMT_002 + [0]) &&
               Get(d, 0, PROGVERCREAT, 100) == Got(VERSION + [0])
            && Get(d, 0, ARCHLABEL, MAX_LABELLEN) == Got(m.name + [0])
            && GetU64(d, 0, CREATTIME) == Some(m.creattime) && GetU32(d, 0, ARCHIVEID) == Some(m.archid)
            && GetU32(d, 0, ARCHTYPE) == Some(m.archtype) && GetU32(d, 0, COMPRESSALGO) == Some(m.compalgo)
            && GetU32(d, 0, COMPRESSLEVEL) == Some(m.complevel) && GetU32(d, 0, ENCRYPTALGO) == Some(m.cryptalgo)
            && GetU32(d, 0, FSACOMPLEVEL) == Some(m.fsacomp) && GetU32(d, 0, HASDIRSINFOHEAD) == Some(1)
            && GetU64(d, 0, MINFSAVERSION) == Some(m.minversion)
  {
    hide Get, GetU32, GetU64, UniqueKeys, Rank;
    MainDicoOk(m);
    var d := MainDico(m);
    assert d[..12] == FixedItems(m);
    assert forall i :: 0 <= i < 12 ==> d[i] == FixedItems(m)[i];
    MainUnique(m);
    GetItemAt(d, 0);
    GetItemAt(d, 1);
    GetItemAt(d, 2);
    GetItemAt(d, 3);
    GetItemAt(d, 4);
    GetItemAt(d, 5);
    GetItemAt(d, 6);
    GetItemAt(d, 7);
    GetItemAt(d, 8);
    GetItemAt(d, 9);
    GetItemAt(d, 10);
    GetItemAt(d, 11);
  }

  lemma {:induction false} MainUnique(m: Info)
    requires WellFormed(MainDico(m))
    ensures UniqueKeys(MainDico(m))
  {}

  /** No splitting, or a whole number of MiB. */
  predicate SplitOk(splitsize: u64) {
    splitsize % Archive.MIB == 0
  }

  /** With every split size that the program accepts, what was written is read back. */
  lemma {:induction false} AcceptedSplitsRoundTrip(m: Info, splitsize: u64, rest: seq<Item>, sel: u16 -> bool)
    requires InfoOk(m) && SplitOk(splitsize) && AllOk(rest) && |rest| < 0xffff_fffe
    ensures var items := [HeaderItem(MainOf(m))] + rest;
            AllOk(items) &&
            Reader.ReadArchive(VolumesOf(m.archid, splitsize, items), sel) ==
            Reader.Result(Archive.WantedAll(sel, items), 0, true)
  {
    hide ItemOk, EncItemOf, GetU32, Reader.ReadArchive, MainDico;
    var items := [HeaderItem(MainOf(m))] + rest;
    MainSmall(m);
    MainFits(m, splitsize);
    assert items[0] == HeaderItem(MainOf(m)) && forall i :: 1 <= i < |items| ==> items[i] == rest[i - 1];
    Archive.VolumeChainRoundTrip(m.archid, splitsize, items, sel);
  }

  lemma {:induction false} MainFits(m: Info, splitsize: u64)
    requires InfoOk(m) && SplitOk(splitsize)
    ensures Fits(m.archid, splitsize)([HeaderItem(MainOf(m))])
  {
    hide ItemOk, EncItemOf, MainDico;
    MainSmall(m);
    SumOne(SizeIn(m.archid), HeaderItem(MainOf(m)));
  }
}
