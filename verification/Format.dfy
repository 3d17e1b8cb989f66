/** The bytes of an archive: checksummed dictionaries, headers and blocks, as they are printed
    (src/writebuf.c) and as they are parsed back from what is left of a volume (src/archreader.c). */
module Format {
  import opened Bytes
  import opened ArchiveItems
  import opened Dico
  import Fletcher

  // ---- magics (src/fsarchiver.h, src/fsarchiver.c)

  /** The four bytes of a magic. */
  function MagicBytes(m: Magic): (s: bytes)
    ensures |s| == 4
  {
    match m
    case VOLH => [0x46, 0x73, 0x41, 0x30] // FsA0
    case VOLF => [0x46, 0x73, 0x41, 0x45] // FsAE
    case MAIN => [0x41, 0x72, 0x43, 0x68] // ArCh
    case FSIN => [0x46, 0x73, 0x49, 0x6e] // FsIn
    case FSYB => [0x46, 0x73, 0x59, 0x73] // FsYs
    case DIRS => [0x44, 0x69, 0x52, 0x73] // DiRs
    case OBJT => [0x4f, 0x62, 0x4a, 0x74] // ObJt
    case BLKH => [0x42, 0x6c, 0x4b, 0x68] // BlKh
    case FILF => [0x46, 0x69, 0x4c, 0x66] // FiLf
    case DATF => [0x44, 0x61, 0x45, 0x6e] // DaEn
  }

  /** The magic that four bytes form, if they form one. */
  function MagicOf(a: byte, b: byte, c: byte, d: byte): Option<Magic> {
    if a == 0x46 && b == 0x73 && c == 0x41 && d == 0x30 then Some(VOLH)
    else if a == 0x46 && b == 0x73 && c == 0x41 && d == 0x45 then Some(VOLF)
    else if a == 0x41 && b == 0x72 && c == 0x43 && d == 0x68 then Some(MAIN)
    else if a == 0x46 && b == 0x73 && c == 0x49 && d == 0x6e then Some(FSIN)
    else if a == 0x46 && b == 0x73 && c == 0x59 && d == 0x73 then Some(FSYB)
    else if a == 0x44 && b == 0x69 && c == 0x52 && d == 0x73 then Some(DIRS)
    else if a == 0x4f && b == 0x62 && c == 0x4a && d == 0x74 then Some(OBJT)
    else if a == 0x42 && b == 0x6c && c == 0x4b && d == 0x68 then Some(BLKH)
    else if a == 0x46 && b == 0x69 && c == 0x4c && d == 0x66 then Some(FILF)
    else if a == 0x44 && b == 0x61 && c == 0x45 && d == 0x6e then Some(DATF)
    else None
  }

  /** The magic at the beginning of s. */
  function MagicAt(s: bytes): Option<Magic> {
    if |s| < 4 then None else MagicOf(s[0], s[1], s[2], s[3])
  }

  lemma {:induction false} MagicAtBytes(m: Magic, tail: bytes)
    ensures MagicAt(MagicBytes(m) + tail) == Some(m)
  {
  }

  const FILESYSID_NULL: u16 := 0xffff

  // keys of block headers
  const BH_REALSIZE: u16 := 1
  const BH_BLOCKOFFSET: u16 := 2
  const BH_COMPRESSALGO: u16 := 3
  const BH_ENCRYPTALGO: u16 := 4
  const BH_ARSIZE: u16 := 5
  const BH_COMPSIZE: u16 := 6
  const BH_ARCSUM: u16 := 7

  // ---- printing

  function EncItem(it: DicoItem): bytes
    requires Storable(it)
  {
    [it.typ, it.section] + Le16(it.key) + Le16(|it.data|) + it.data
  }

  function EncItems(d: seq<DicoItem>): bytes
    requires forall i :: 0 <= i < |d| ==> Storable(d[i])
  {
    if d == [] then [] else EncItem(d[0]) + EncItems(d[1..])
  }

  /** The number of items is stored in 16 bits. */
  function DicoBody(d: seq<DicoItem>): bytes
    requires forall i :: 0 <= i < |d| ==> Storable(d[i])
  {
    Le16(|d| % 0x1_0000) + EncItems(d)
  }

  /** The length of a dictionary is stored in 32 bits. */
  predicate Printable(d: seq<DicoItem>) {
    WellFormed(d) && |DicoBody(d)| < 0x1_0000_0000
  }

  function EncDico(d: seq<DicoItem>): bytes
    requires Printable(d)
  {
    Le32(|DicoBody(d)|) + DicoBody(d) + Le32(Fletcher.Checksum(DicoBody(d)))
  }

  function EncHeader(magic: Magic, archid: u32, fsid: u16, d: seq<DicoItem>): bytes
    requires Printable(d)
  {
    MagicBytes(magic) + Le32(archid) + Le16(fsid) + EncDico(d)
  }

  function BlockDico(b: Block): seq<DicoItem> {
    [U64Item(0, BH_BLOCKOFFSET, b.offset), U32Item(0, BH_REALSIZE, b.realSize), U32Item(0, BH_ARSIZE, b.arSize),
     U32Item(0, BH_COMPSIZE, b.compSize), U32Item(0, BH_ARCSUM, b.arcSum),
     U16Item(0, BH_COMPRESSALGO, b.compAlgo), U16Item(0, BH_ENCRYPTALGO, b.cryptAlgo)]
  }

  lemma {:induction false} EncItemsLength(d: seq<DicoItem>)
    requires forall i :: 0 <= i < |d| ==> Storable(d[i])
    ensures |EncItems(d)| <= 0x1_0005 * |d|
  {
    if d != [] {
      EncItemsLength(d[1..]);
    }
  }

  lemma {:induction false} ShortPrintable(d: seq<DicoItem>)
    requires WellFormed(d) && |d| < 0x8000
    ensures Printable(d)
  {
    EncItemsLength(d);
  }

  lemma {:induction false} BlockDicoPrintable(b: Block)
    ensures Printable(BlockDico(b))
  {
    ShortPrintable(BlockDico(b));
  }

  /** A block header followed by the data as they are in the archive. */
  function EncBlock(b: Block, archid: u32): bytes {
    BlockDicoPrintable(b);
    EncHeader(BLKH, archid, b.fsid, BlockDico(b)) + b.data
  }

  // ---- parsing

  datatype ParsedDico = Parsed(dico: seq<DicoItem>) | Duplicate | Overrun

  /** Reads `count` items behind those of `acc`. An item that runs past the buffer is Overrun. */
  function ParseItems(s: bytes, count: nat, acc: seq<DicoItem>): ParsedDico
    decreases count
  {
    if count == 0 then Parsed(acc)
    else if |s| < 6 then Overrun
    else
      var size := De16(s[4..6]);
      var key := De16(s[2..4]);
      if |s| < 6 + size then Overrun
      else if IndexOf(acc, s[1], key) < |acc| then Duplicate
      else ParseItems(s[6 + size..], count - 1, acc + [DicoItem(s[0], s[1], key, s[6..6 + size])])
  }

  function ParseBody(body: bytes): ParsedDico {
    if |body| < 2 then Overrun else ParseItems(body[2..], De16(body[..2]), [])
  }

  datatype DicoRead = DicoFatal | DicoMinor(rest: bytes) | DicoOk(dico: seq<DicoItem>, rest: bytes)

  /** A wrong checksum is a minor error, met behind the header; everything else is fatal. */
  function ReadDico(s: bytes): DicoRead {
    if |s| < 4 then DicoFatal
    else
      var len, afterLen := De32(s[..4]), s[4..];
      if |afterLen| < len then DicoFatal
      else
        var body, afterBody := afterLen[..len], afterLen[len..];
        if |afterBody| < 4 then DicoFatal
        else if Fletcher.Checksum(body) != De32(afterBody[..4]) then DicoMinor(afterBody[4..])
        else
          match ParseBody(body)
          case Parsed(d) => DicoOk(d, afterBody[4..])
          case _ => DicoFatal
  }

  /** What is left of the volume from the first magic on, or nothing. */
  function Resync(s: bytes): (r: bytes)
    ensures r == [] || MagicAt(r).Some?
    ensures |r| <= |s|
  {
    if |s| < 4 then [] else if MagicAt(s).Some? then s else Resync(s[1..])
  }

  datatype HeaderRead =
    | HeaderFatal
    | HeaderMinor(rest: bytes)
    | HeaderOk(magic: Magic, fsid: u16, dico: seq<DicoItem>, rest: bytes)

  /** A header whose magic has been found at the beginning of m. With `archid` zero the archive is not
      known yet and its id is not compared. */
  function HeaderAt(m: bytes, archid: u32): (r: HeaderRead)
    requires MagicAt(m).Some?
    ensures r.HeaderMinor? || r.HeaderOk? ==> |r.rest| < |m|
  {
    var afterMagic := m[4..];
    if |afterMagic| < 4 then HeaderFatal
    else
      var afterId := afterMagic[4..];
      if archid != 0 && De32(afterMagic[..4]) != archid then HeaderMinor(afterId)
      else if |afterId| < 2 then HeaderFatal
      else
        match ReadDico(afterId[2..])
        case DicoFatal => HeaderFatal
        case DicoMinor(rest) => HeaderMinor(rest)
        case DicoOk(d, rest) => HeaderOk(MagicAt(m).value, De16(afterId[..2]), d, rest)
  }

  function ReadHeader(s: bytes, archid: u32, allowSeek: bool): (r: HeaderRead)
    ensures r.HeaderMinor? || r.HeaderOk? ==> |r.rest| < |s|
  {
    if MagicAt(s).None? && !allowSeek then HeaderFatal
    else if Resync(s) == [] then HeaderFatal
    else HeaderAt(Resync(s), archid)
  }

  datatype BlockRead = BlockFatal | BlockSkipped(rest: bytes) | BlockGot(block: Block, sumOk: bool, rest: bytes)

  /** A block whose checksum is wrong becomes zeros, and the search for the next header starts again
      at the first byte of its data. The filesystem id of the block is not filled in. */
  function ReadBlock(s: bytes, d: seq<DicoItem>, skip: bool): (r: BlockRead)
    ensures r.BlockSkipped? || r.BlockGot? ==> |r.rest| <= |s|
  {
    var offset := GetU64(d, 0, BH_BLOCKOFFSET);
    var realSize := GetU32(d, 0, BH_REALSIZE);
    var compAlgo := GetU16(d, 0, BH_COMPRESSALGO);
    var cryptAlgo := GetU16(d, 0, BH_ENCRYPTALGO);
    var arSize := GetU32(d, 0, BH_ARSIZE);
    var compSize := GetU32(d, 0, BH_COMPSIZE);
    var arcSum := GetU32(d, 0, BH_ARCSUM);
    if offset.None? || realSize.None? || realSize.value > MAX_BLKSIZE || compAlgo.None? || cryptAlgo.None?
      || arSize.None? || compSize.None? || arcSum.None? then BlockFatal
    else if skip then BlockSkipped(if |s| < arSize.value then [] else s[arSize.value..])
    else if |s| < arSize.value then BlockFatal
    else
      var data := s[..arSize.value];
      var sumOk := Fletcher.Checksum(data) == arcSum.value;
      BlockGot(
        Block(if sumOk then data else Zeros(realSize.value), realSize.value, offset.value, arcSum.value,
              arSize.value, compAlgo.value, compSize.value, cryptAlgo.value, 0),
        sumOk, if sumOk then s[arSize.value..] else s)
  }

  // ---- what was printed is parsed back

  lemma {:induction false} ParseOneItem(it: DicoItem, tail: bytes, count: nat, acc: seq<DicoItem>)
    requires Storable(it) && count > 0 && IndexOf(acc, it.section, it.key) == |acc|
    ensures ParseItems(EncItem(it) + tail, count, acc) == ParseItems(tail, count - 1, acc + [it])
  {
    var s := EncItem(it) + tail;
    assert s[2..4] == Le16(it.key) && s[4..6] == Le16(|it.data|);
    DecodeEncode16(it.key);
    DecodeEncode16(|it.data|);
    assert s[6..6 + |it.data|] == it.data && s[6 + |it.data|..] == tail;
  }

  lemma {:induction false} NewInDico(d: seq<DicoItem>, acc: seq<DicoItem>)
    requires WellFormed(acc + d) && d != []
    ensures IndexOf(acc, d[0].section, d[0].key) == |acc|
  {
    assert (acc + d)[|acc|] == d[0];
    assert forall j :: 0 <= j < |acc| ==> (acc + d)[j] == acc[j];
  }

  lemma {:induction false} NoItemLeft(tail: bytes, acc: seq<DicoItem>)
    ensures ParseItems(EncItems([]) + tail, 0, acc) == Parsed(acc)
  {}

  lemma {:induction false} FirstItem(d: seq<DicoItem>, tail: bytes)
    requires d != [] && forall i :: 0 <= i < |d| ==> Storable(d[i])
    ensures EncItems(d) + tail == EncItem(d[0]) + (EncItems(d[1..]) + tail)
  {
    hide EncItem;
  }

  lemma {:induction false} ParsePrintedItems(d: seq<DicoItem>, tail: bytes, acc: seq<DicoItem>)
    requires WellFormed(acc + d) && forall i :: 0 <= i < |d| ==> Storable(d[i])
    ensures ParseItems(EncItems(d) + tail, |d|, acc) == Parsed(acc + d)
    decreases |d|
  {
    hide EncItem, EncItems, ParseItems, WellFormed, IndexOf, Storable;
    if d == [] {
      assert acc + d == acc;
      NoItemLeft(tail, acc);
    } else {
      NewInDico(d, acc);
      FirstItem(d, tail);
      ParseOneItem(d[0], EncItems(d[1..]) + tail, |d|, acc);
      assert acc + [d[0]] + d[1..] == acc + d;
      ParsePrintedItems(d[1..], tail, acc + [d[0]]);
    }
  }

  lemma {:induction false} BodyRoundTrip(d: seq<DicoItem>)
    requires WellFormed(d) && |d| < 0x1_0000
    ensures ParseBody(DicoBody(d)) == Parsed(d)
  {
    DecodeEncode16(|d|);
    assert DicoBody(d)[..2] == Le16(|d|) && DicoBody(d)[2..] == EncItems(d) + [];
    assert [] + d == d;
    ParsePrintedItems(d, [], []);
  }

  lemma {:induction false} ParseCount(s: bytes, count: nat, acc: seq<DicoItem>)
    ensures ParseItems(s, count, acc).Parsed? ==> |ParseItems(s, count, acc).dico| == |acc| + count
    decreases count
  {
    if count > 0 && |s| >= 6 && |s| >= 6 + De16(s[4..6]) {
      var size, key := De16(s[4..6]), De16(s[2..4]);
      ParseCount(s[6 + size..], count - 1, acc + [DicoItem(s[0], s[1], key, s[6..6 + size])]);
    }
  }

  /** Dictionaries survive exactly up to 65535 items: the 16-bit count is the only thing that can fail. */
  lemma {:induction false} BodyRoundTripIff(d: seq<DicoItem>)
    requires WellFormed(d)
    ensures ParseBody(DicoBody(d)) == Parsed(d) <==> |d| < 0x1_0000
  {
    if |d| < 0x1_0000 {
      BodyRoundTrip(d);
    } else {
      DecodeEncode16(|d| % 0x1_0000);
      assert DicoBody(d)[..2] == Le16(|d| % 0x1_0000);
      ParseCount(DicoBody(d)[2..], |d| % 0x1_0000, []);
    }
  }

  lemma {:induction false} DicoRoundTrip(d: seq<DicoItem>, tail: bytes)
    requires Printable(d) && |d| < 0x1_0000
    ensures ReadDico(EncDico(d) + tail) == DicoOk(d, tail)
  {
    var body, s := DicoBody(d), EncDico(d) + tail;
    DecodeEncode32(|body|);
    DecodeEncode32(Fletcher.Checksum(body));
    assert s[..4] == Le32(|body|) && s[4..] == body + (Le32(Fletcher.Checksum(body)) + tail);
    assert s[4..][..|body|] == body && s[4..][|body|..] == Le32(Fletcher.Checksum(body)) + tail;
    assert s[4..][|body|..][4..] == tail;
    BodyRoundTrip(d);
  }

  /** Behind the magic and the two ids everything depends on the dictionary. */
  lemma {:induction false} HeaderPrefix(magic: Magic, archid: u32, fsid: u16, dico: bytes, known: u32, allowSeek: bool)
    requires known == 0 || known == archid
    ensures ReadHeader(MagicBytes(magic) + (Le32(archid) + (Le16(fsid) + dico)), known, allowSeek) ==
            match ReadDico(dico)
            case DicoFatal => HeaderFatal
            case DicoMinor(rest) => HeaderMinor(rest)
            case DicoOk(d, rest) => HeaderOk(magic, fsid, d, rest)
  {
    hide MagicOf, MagicBytes, ReadDico, De32, De16;
    var s2 := Le16(fsid) + dico;
    var s1 := Le32(archid) + s2;
    var s := MagicBytes(magic) + s1;
    assert s[4..] == s1 && s1[..4] == Le32(archid) && s1[4..] == s2 && s2[..2] == Le16(fsid) && s2[2..] == dico;
    MagicAtBytes(magic, s1);
    DecodeEncode32(archid);
    DecodeEncode16(fsid);
  }

  /** A header comes back with the same magic, filesystem id and ordered items, and exactly its own
      bytes are consumed. */
  lemma {:induction false} HeaderRoundTrip(magic: Magic, archid: u32, fsid: u16, d: seq<DicoItem>,
                                           tail: bytes, known: u32, allowSeek: bool)
    requires Printable(d) && |d| < 0x1_0000 && (known == 0 || known == archid)
    ensures ReadHeader(EncHeader(magic, archid, fsid, d) + tail, known, allowSeek) == HeaderOk(magic, fsid, d, tail)
  {
    hide ReadHeader, ReadDico, MagicBytes, EncDico;
    HeaderPrefix(magic, archid, fsid, EncDico(d) + tail, known, allowSeek);
    DicoRoundTrip(d, tail);
    assert EncHeader(magic, archid, fsid, d) + tail
        == MagicBytes(magic) + (Le32(archid) + (Le16(fsid) + (EncDico(d) + tail)));
  }

  /** A header of another archive is a minor error, met behind its id. */
  lemma {:induction false} OtherArchive(magic: Magic, archid: u32, fsid: u16, d: seq<DicoItem>, tail: bytes, known: u32,
                                        allowSeek: bool)
    requires Printable(d) && known != 0 && known != archid
    ensures var s := EncHeader(magic, archid, fsid, d) + tail;
            |s| >= 8 && ReadHeader(s, known, allowSeek) == HeaderMinor(s[8..])
  {
    hide MagicOf, MagicBytes, EncDico, De32;
    var rest := Le32(archid) + (Le16(fsid) + EncDico(d) + tail);
    var s := EncHeader(magic, archid, fsid, d) + tail;
    assert s == MagicBytes(magic) + rest && s[4..] == rest && rest[..4] == Le32(archid);
    MagicAtBytes(magic, rest);
    DecodeEncode32(archid);
  }

  // ---- what is cut off or malformed

  /** No part of a printed dictionary is taken for a dictionary. */
  lemma {:induction false} DicoCut(d: seq<DicoItem>, k: nat)
    requires Printable(d) && k < |EncDico(d)|
    ensures ReadDico(EncDico(d)[..k]) == DicoFatal
  {
    hide Fletcher.Checksum, ParseBody, Le32;
    var s, body := EncDico(d), DicoBody(d);
    DecodeEncode32(|body|);
    if k >= 4 {
      assert s[..k][..4] == s[..4] == Le32(|body|);
    }
  }

  /** Nor is any part of a printed header. */
  lemma {:induction false} HeaderCut(magic: Magic, archid: u32, fsid: u16, d: seq<DicoItem>, k: nat, known: u32)
    requires Printable(d) && (known == 0 || known == archid) && k < |EncHeader(magic, archid, fsid, d)|
    ensures ReadHeader(EncHeader(magic, archid, fsid, d)[..k], known, false) == HeaderFatal
  {
    hide MagicOf, MagicBytes, EncDico, De32, ReadDico, Le32, Le16;
    var s := EncHeader(magic, archid, fsid, d);
    var cut := s[..k];
    if k >= 10 {
      DicoCut(d, k - 10);
      assert cut == MagicBytes(magic) + (Le32(archid) + (Le16(fsid) + EncDico(d)[..k - 10]));
      HeaderPrefix(magic, archid, fsid, EncDico(d)[..k - 10], known, false);
    } else if k >= 4 {
      CutId(magic, archid, fsid, EncDico(d), k, known);
    }
  }

  lemma {:induction false} CutId(magic: Magic, archid: u32, fsid: u16, dico: bytes, k: nat, known: u32)
    requires (known == 0 || known == archid) && 4 <= k < 10
    ensures ReadHeader((MagicBytes(magic) + Le32(archid) + Le16(fsid) + dico)[..k], known, false) == HeaderFatal
  {
    hide MagicOf, MagicBytes, De32, ReadDico, Le32, Le16;
    var s := MagicBytes(magic) + Le32(archid) + Le16(fsid) + dico;
    var rest := (Le32(archid) + Le16(fsid) + dico)[..k - 4];
    assert s[..k] == MagicBytes(magic) + rest && s[..k][4..] == rest;
    MagicAtBytes(magic, rest);
    DecodeEncode32(archid);
    if k >= 8 {
      assert rest[..4] == Le32(archid);
    }
  }

  /** Without a magic at the place nothing is read there, and without any magic nothing is read at all. */
  lemma {:induction false} NoHeader(s: bytes, known: u32)
    ensures MagicAt(s).None? ==> ReadHeader(s, known, false) == HeaderFatal
    ensures (forall i :: 0 <= i <= |s| ==> MagicAt(s[i..]).None?) ==> ReadHeader(s, known, true) == HeaderFatal
  {
    hide MagicAt, HeaderAt;
    if forall i :: 0 <= i <= |s| ==> MagicAt(s[i..]).None? {
      NoMagicAnywhere(s);
    }
  }

  lemma {:induction false} NoMagicAnywhere(s: bytes)
    requires forall i :: 0 <= i <= |s| ==> MagicAt(s[i..]).None?
    ensures Resync(s) == []
  {
    hide MagicAt;
    if |s| >= 4 {
      assert s[0..] == s;
      forall i | 0 <= i <= |s[1..]| ensures MagicAt(s[1..][i..]).None? {
        assert s[1..][i..] == s[i + 1..];
      }
      NoMagicAnywhere(s[1..]);
    }
  }

  /** A dictionary in which a section and key stand twice cannot be read. */
  lemma {:induction false} RepeatedKeys(d: seq<DicoItem>, tail: bytes)
    requires |d| < 0x1_0000 && !UniqueKeys(d) && (forall i :: 0 <= i < |d| ==> Storable(d[i]))
    requires |DicoBody(d)| < 0x1_0000_0000
    ensures ReadDico(Le32(|DicoBody(d)|) + DicoBody(d) + Le32(Fletcher.Checksum(DicoBody(d))) + tail) == DicoFatal
  {
    hide Fletcher.Checksum, EncItems, ParseItems;
    var body, sum := DicoBody(d), Fletcher.Checksum(DicoBody(d));
    var s := Le32(|body|) + body + Le32(sum) + tail;
    DecodeEncode32(|body|);
    DecodeEncode32(sum);
    DecodeEncode16(|d|);
    assert s[..4] == Le32(|body|) && s[4..] == body + (Le32(sum) + tail);
    assert s[4..][..|body|] == body && s[4..][|body|..] == Le32(sum) + tail && s[4..][|body|..][..4] == Le32(sum);
    assert body[..2] == Le16(|d|) && body[2..] == EncItems(d) + [];
    assert [] + d == d;
    ParseRepeated(d, [], []);
  }

  lemma {:induction false} ParseRepeated(d: seq<DicoItem>, tail: bytes, acc: seq<DicoItem>)
    requires UniqueKeys(acc) && !UniqueKeys(acc + d) && forall i :: 0 <= i < |d| ==> Storable(d[i])
    ensures ParseItems(EncItems(d) + tail, |d|, acc) == Duplicate
    decreases |d|
  {
    hide EncItem, EncItems;
    assert d == [] ==> acc + d == acc;
    FirstItem(d, tail);
    var rest := EncItems(d[1..]) + tail;
    if IndexOf(acc, d[0].section, d[0].key) < |acc| {
      ParseOneRepeated(d[0], rest, |d|, acc);
    } else {
      ParseOneItem(d[0], rest, |d|, acc);
      OneMoreUnique(acc, d[0]);
      assert acc + [d[0]] + d[1..] == acc + d;
      ParseRepeated(d[1..], tail, acc + [d[0]]);
    }
  }

  lemma {:induction false} OneMoreUnique(acc: seq<DicoItem>, it: DicoItem)
    requires UniqueKeys(acc) && IndexOf(acc, it.section, it.key) == |acc|
    ensures UniqueKeys(acc + [it])
  {}

  lemma {:induction false} ParseOneRepeated(it: DicoItem, tail: bytes, count: nat, acc: seq<DicoItem>)
    requires Storable(it) && count > 0 && IndexOf(acc, it.section, it.key) < |acc|
    ensures ParseItems(EncItem(it) + tail, count, acc) == Duplicate
  {
    var s := EncItem(it) + tail;
    assert s[2..4] == Le16(it.key) && s[4..6] == Le16(|it.data|);
    DecodeEncode16(it.key);
    DecodeEncode16(|it.data|);
  }

  /** The data of a block that are cut off stop the reader, unless they are skipped, and so does a block that is
      larger than any may be. */
  lemma {:induction false} BlockCut(b: Block, raw: bytes)
    requires |raw| < b.arSize
    ensures b.realSize <= MAX_BLKSIZE ==> ReadBlock(raw, BlockDico(b), false) == BlockFatal
    ensures b.realSize <= MAX_BLKSIZE ==> ReadBlock(raw, BlockDico(b), true) == BlockSkipped([])
    ensures b.realSize > MAX_BLKSIZE ==> forall skip, s :: ReadBlock(s, BlockDico(b), skip) == BlockFatal
  {
    hide Fletcher.Checksum, BlockDico, GetU16, GetU32, GetU64;
    BlockDicoRead(b);
  }

  /** Printed by a consistent writer: sizes and checksum describe the data. */
  predicate BlockOk(b: Block) {
    |b.data| == b.arSize && b.arSize > 0 && b.realSize <= MAX_BLKSIZE && b.arcSum == Fletcher.Checksum(b.data)
  }

  lemma {:induction false} BlockDicoRead(b: Block)
    ensures var d := BlockDico(b);
            && GetU64(d, 0, BH_BLOCKOFFSET) == Some(b.offset) && GetU32(d, 0, BH_REALSIZE) == Some(b.realSize)
            && GetU32(d, 0, BH_ARSIZE) == Some(b.arSize) && GetU32(d, 0, BH_COMPSIZE) == Some(b.compSize)
            && GetU32(d, 0, BH_ARCSUM) == Some(b.arcSum) && GetU16(d, 0, BH_COMPRESSALGO) == Some(b.compAlgo)
            && GetU16(d, 0, BH_ENCRYPTALGO) == Some(b.cryptAlgo)
  {
    var d := BlockDico(b);
    GetItemAt(d, 0);
    GetItemAt(d, 1);
    GetItemAt(d, 2);
    GetItemAt(d, 3);
    GetItemAt(d, 4);
    GetItemAt(d, 5);
    GetItemAt(d, 6);
  }

  /** The data of a block are read back when they are what was written; any other data of the same
      length with another checksum become zeros and are searched for headers. */
  lemma {:induction false} BlockDataRead(b: Block, raw: bytes, tail: bytes)
    requires BlockOk(b) && |raw| == b.arSize
    ensures ReadBlock(raw + tail, BlockDico(b), true) == BlockSkipped(tail)
    ensures raw == b.data ==> ReadBlock(raw + tail, BlockDico(b), false) == BlockGot(b.(fsid := 0), true, tail)
    ensures Fletcher.Checksum(raw) != b.arcSum ==>
              ReadBlock(raw + tail, BlockDico(b), false) ==
              BlockGot(b.(fsid := 0, data := Zeros(b.realSize)), false, raw + tail)
  {
    BlockDicoRead(b);
    assert (raw + tail)[..b.arSize] == raw && (raw + tail)[b.arSize..] == tail;
  }
}
