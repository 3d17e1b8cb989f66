/** A chain of volumes, possibly damaged, and what the reading thread makes of it. */
module VolumeChain {
  import opened Bytes
  import opened ArchiveItems
  import opened Dico
  import opened Format
  import opened Reader
  import opened Volumes
  import Fletcher

  // ---- resynchronisation

  /** Two magics never overlap: no proper suffix of one is a prefix of another. */
  lemma {:induction false} MagicsDoNotOverlap(s: bytes, k: nat)
    requires 1 <= k <= 3 && k <= |s| && MagicAt(s).Some?
    ensures MagicAt(s[k..]).None?
  {
  }

  /** The search stops at the least offset that holds a magic, and fails only when there is none. */
  lemma {:induction false} ResyncIsLeast(s: bytes)
    ensures Resync(s) == [] <==> forall q :: 0 <= q <= |s| ==> MagicAt(s[q..]).None?
    ensures Resync(s) != [] ==>
              var p := |s| - |Resync(s)|;
              Resync(s) == s[p..] && MagicAt(s[p..]).Some? && forall q :: 0 <= q < p ==> MagicAt(s[q..]).None?
  {
    hide MagicAt;
    assert s[0..] == s;
    if |s| < 4 {
      NoMagic(s);
    } else if MagicAt(s).None? {
      ResyncIsLeast(s[1..]);
      forall q | 1 <= q <= |s| ensures s[q..] == s[1..][q - 1..] {
      }
    }
  }

  lemma {:induction false} NoMagic(s: bytes)
    requires |s| < 4
    ensures forall q :: 0 <= q <= |s| ==> MagicAt(s[q..]).None?
  {}

  /** Bytes without a magic of their own never hide the header behind them, not even together with it. */
  lemma {:induction false} ResyncPastClean(raw: bytes, tail: bytes)
    requires Resync(raw) == [] && MagicAt(tail).Some?
    ensures Resync(raw + tail) == tail
  {
    if raw == [] {
      assert raw + tail == tail;
    } else {
      if |raw| < 4 {
        assert (raw + tail)[|raw|..] == tail;
        if MagicAt(raw + tail).Some? {
          MagicsDoNotOverlap(raw + tail, |raw|);
        }
      } else {
        assert MagicAt(raw + tail) == MagicAt(raw);
      }
      assert (raw + tail)[1..] == raw[1..] + tail;
      assert Resync(raw[1..]) == [];
      ResyncPastClean(raw[1..], tail);
    }
  }

  lemma {:induction false} ResyncWithin(raw: bytes, tail: bytes)
    requires Resync(raw) != []
    ensures Resync(raw + tail) == Resync(raw) + tail
  {
    hide MagicOf;
    assert MagicAt(raw + tail) == MagicAt(raw);
    if MagicAt(raw).None? {
      assert (raw + tail)[1..] == raw[1..] + tail;
      ResyncWithin(raw[1..], tail);
    }
  }

  /** Bytes that the reader passes over whatever follows: every magic in them is followed, still
      within them, by the id of another archive, as in the data of a nested archive. */
  predicate Skippable(archid: u32, s: bytes)
    decreases |s|
  {
    var r := Resync(s);
    r == [] || (|r| >= 8 && De32(r[4..8]) != archid && Skippable(archid, r[8..]))
  }

  /** How many headers of other archives the reader rejects on its way. */
  function Foreign(s: bytes): nat
    decreases |s|
  {
    var r := Resync(s);
    if |r| < 8 then 0 else 1 + Foreign(r[8..])
  }

  lemma {:induction false} SkipJunk(vols: seq<bytes>, sel: u16 -> bool, p: Place, raw: bytes, tail: bytes)
    requires p.At? && p.k < |vols| && p.archid != 0 && p.s == raw + tail
    requires MagicAt(tail).Some? && Skippable(p.archid, raw)
    ensures ReadLoop(vols, sel, p) == Prepend([], Foreign(raw), ReadLoop(vols, sel, p.(s := tail)))
    decreases |raw|
  {
    hide MagicOf, De32, ReadDico;
    var r := Resync(raw);
    if r == [] {
      ResyncPastClean(raw, tail);
      SameSearch(vols, sel, p, tail);
    } else {
      ResyncWithin(raw, tail);
      assert (r + tail)[4..][..4] == r[4..8] && (r + tail)[4..][4..] == r[8..] + tail;
      SkipJunk(vols, sel, p.(s := r[8..] + tail), r[8..], tail);
      MinorRound(vols, sel, p, r[8..] + tail);
    }
  }

  // ---- nested archives

  /** Every magic that the search meets in s, together with the id behind it, is of another archive. */
  predicate ForeignOnly(archid: u32, s: bytes)
    decreases |s|
  {
    var r := Resync(s);
    |r| < 8 || (De32(r[4..8]) != archid && ForeignOnly(archid, r[8..]))
  }

  /** The last magic met in s whose id does not lie within s, and what is behind it; or nothing. */
  function Stray(s: bytes): (r: bytes)
    ensures |r| < 8 && (r != [] ==> MagicAt(r).Some?)
    decreases |s|
  {
    var r := Resync(s);
    if |r| < 8 then r else Stray(r[8..])
  }

  /** The search of some round, in this volume, stops exactly at `tail`. */
  predicate Finds(vols: seq<bytes>, sel: u16 -> bool, p: Place, k: nat, tail: bytes)
    requires p.At? ==> p.k < |vols|
    decreases if p.At? then |vols| - p.k else 0, if p.At? then |p.s| + 1 else 0
  {
    p.At? && p.k == k && (Resync(p.s) == tail || Finds(vols, sel, Round(vols, sel, p).place, k, tail))
  }

  lemma {:induction false} NeverBack(vols: seq<bytes>, sel: u16 -> bool, p: Place, tail: bytes)
    requires p.At? && p.k < |vols| && |p.s| < |tail|
    ensures !Finds(vols, sel, p, p.k, tail)
    decreases |p.s|
  {
    hide ReadHeader, Format.ReadBlock, AfterFooter, Resync;
    var next := Round(vols, sel, p).place;
    if next.At? && next.k == p.k {
      NeverBack(vols, sel, next, tail);
    }
  }

  lemma {:induction false} MinorFinds(vols: seq<bytes>, sel: u16 -> bool, p: Place, rest: bytes, tail: bytes)
    requires p.At? && p.k < |vols| && ReadHeader(p.s, p.archid, true) == HeaderMinor(rest)
    ensures Finds(vols, sel, p, p.k, tail) <==> Resync(p.s) == tail || Finds(vols, sel, p.(s := rest), p.k, tail)
    ensures |rest| < |p.s|
  {}

  /** Among bytes whose magics all belong to other archives, a header is found if and only if the bytes are
      skippable: no magic that the search meets stands less than eight bytes in front of the header. Such a
      magic takes the first bytes of the header for its archive id, and reading goes on inside the header. */
  lemma {:induction false} HeaderFoundIff(vols: seq<bytes>, sel: u16 -> bool, p: Place, raw: bytes, tail: bytes)
    requires p.At? && p.k < |vols| && p.archid != 0 && p.s == raw + tail && MagicAt(tail).Some?
    requires ForeignOnly(p.archid, raw)
    requires Stray(raw) != [] ==> De32((Stray(raw) + tail)[4..8]) != p.archid
    ensures Finds(vols, sel, p, p.k, tail) <==> Skippable(p.archid, raw)
    ensures Skippable(p.archid, raw) <==> Stray(raw) == []
    ensures ReadLoop(vols, sel, p) ==
            if Skippable(p.archid, raw) then Prepend([], Foreign(raw), ReadLoop(vols, sel, p.(s := tail)))
            else Prepend([], Foreign(raw) + 1, ReadLoop(vols, sel, p.(s := tail[8 - |Stray(raw)|..])))
    decreases |raw|
  {
    hide MagicOf, De32, ReadHeader, Finds, ReadLoop;
    var r := Resync(raw);
    if r == [] {
      ResyncPastClean(raw, tail);
      FoundHere(vols, sel, p, tail);
      SameSearch(vols, sel, p, tail);
    } else {
      ResyncWithin(raw, tail);
      if |r| >= 8 {
        var rest := r[8..] + tail;
        ForeignPassed(p.archid, raw, tail);
        MinorFinds(vols, sel, p, rest, tail);
        MinorRound(vols, sel, p, rest);
        HeaderFoundIff(vols, sel, p.(s := rest), r[8..], tail);
      } else {
        var rest := tail[8 - |r|..];
        StrayTaken(p.archid, raw, tail);
        MinorFinds(vols, sel, p, rest, tail);
        MinorRound(vols, sel, p, rest);
        NeverBack(vols, sel, p.(s := rest), tail);
      }
    }
  }

  /** A magic with a foreign id is passed over. */
  lemma {:induction false} ForeignPassed(archid: u32, raw: bytes, tail: bytes)
    requires archid != 0 && |Resync(raw)| >= 8 && De32(Resync(raw)[4..8]) != archid
    ensures ReadHeader(raw + tail, archid, true) == HeaderMinor(Resync(raw)[8..] + tail)
  {
    hide MagicOf, De32, ReadDico;
    var r := Resync(raw);
    ResyncWithin(raw, tail);
    assert (r + tail)[4..][..4] == r[4..8] && (r + tail)[4..][4..] == r[8..] + tail;
  }

  /** A magic close to the end takes its id from the bytes behind. */
  lemma {:induction false} StrayTaken(archid: u32, raw: bytes, tail: bytes)
    requires archid != 0 && 4 <= |Resync(raw)| < 8 && |tail| >= 4 && De32((Resync(raw) + tail)[4..8]) != archid
    ensures ReadHeader(raw + tail, archid, true) == HeaderMinor(tail[8 - |Resync(raw)|..])
  {
    hide MagicOf, De32, ReadDico;
    var r := Resync(raw);
    ResyncWithin(raw, tail);
    assert (r + tail)[4..][..4] == (r + tail)[4..8] && (r + tail)[4..][4..] == tail[8 - |r|..];
  }

  /** A bare magic hides any header behind it. */
  lemma {:induction false} StrayMagicHides(vols: seq<bytes>, sel: u16 -> bool, p: Place, m: Magic,
                                           h: Header, behind: bytes)
    requires p.At? && p.k < |vols| && p.archid != 0 && ItemOk(HeaderItem(h))
    requires p.s == MagicBytes(m) + (EncItemOf(p.archid, HeaderItem(h)) + behind)
    requires De32(MagicBytes(h.magic)) != p.archid
    ensures var raw, tail := MagicBytes(m), EncItemOf(p.archid, HeaderItem(h)) + behind;
            && ForeignOnly(p.archid, raw) && Stray(raw) == raw && !Skippable(p.archid, raw)
            && !Finds(vols, sel, p, p.k, tail)
            && ReadLoop(vols, sel, p) == Prepend([], 1, ReadLoop(vols, sel, p.(s := tail[4..])))
  {
    hide Finds, ReadLoop, MagicBytes, De32, EncItemOf, ForeignOnly, Stray, Skippable, Foreign, ItemOk, MagicAt;
    var raw, tail := MagicBytes(m), EncItemOf(p.archid, HeaderItem(h)) + behind;
    BareMagic(p.archid, m);
    ItemBytes(p.archid, h, behind);
    assert (raw + tail)[4..8] == tail[..4];
    HeaderFoundIff(vols, sel, p, raw, tail);
  }

  lemma {:induction false} BareMagic(archid: u32, m: Magic)
    ensures var raw := MagicBytes(m);
            ForeignOnly(archid, raw) && Stray(raw) == raw && !Skippable(archid, raw) && Foreign(raw) == 0
  {
    hide MagicOf, MagicBytes;
    MagicAtBytes(m, []);
    assert MagicBytes(m) + [] == MagicBytes(m) && Resync(MagicBytes(m)) == MagicBytes(m);
  }

  lemma {:induction false} ItemBytes(archid: u32, h: Header, behind: bytes)
    requires ItemOk(HeaderItem(h))
    ensures var tail := EncItemOf(archid, HeaderItem(h)) + behind;
            |tail| >= 4 && tail[..4] == MagicBytes(h.magic) && MagicAt(tail).Some?
  {
    hide MagicBytes, MagicOf, EncDico;
    StartsWithMagic(archid, Good(HeaderItem(h)), behind);
  }

  /** No magic has a zero, a one or a two in it, nor 255. */
  lemma {:induction false} PlainBytes(s: bytes)
    requires forall i :: 0 <= i < |s| ==> s[i] <= 2 || s[i] == 255
    ensures Resync(s) == []
  {
    if |s| >= 4 {
      assert MagicAt(s).None?;
      PlainBytes(s[1..]);
    }
  }

  const Plain := Header(OBJT, 0, [])

  lemma {:induction false} PlainEncoded()
    ensures ItemOk(HeaderItem(Plain))
    ensures EncItemOf(1, HeaderItem(Plain)) ==
            MagicBytes(OBJT) + [1, 0, 0, 0, 0, 0, 2, 0, 0, 0, 0, 0, 255, 255, 255, 255]
  {
    hide MagicBytes;
    ShortPrintable([]);
    var none: seq<DicoItem> := [];
    assert DicoBody(none) == [0, 0];
    ZeroSum();
    assert Le32(1) == [1, 0, 0, 0] && Le16(0) == [0, 0] && Le32(2) == [2, 0, 0, 0];
    assert Le32(0xffff_ffff) == [255, 255, 255, 255];
  }

  lemma {:induction false} ZeroSum()
    ensures Fletcher.Checksum([0, 0]) == 0xffff_ffff
  {
    var two: bytes, one: bytes := [0, 0], [0];
    assert two[..1] == one && one[..0] == [];
    assert Fletcher.Sum(one) == 0 && Fletcher.Sum(two) == 0;
    assert Fletcher.SumOfPrefixSums(one) == 0 && Fletcher.SumOfPrefixSums(two) == 0;
  }

  /** An object header of archive number 1 without items: it is read, but four foreign bytes in front of it
      are enough to lose it. */
  lemma {:induction false} StrayMagicLoses(vols: seq<bytes>, sel: u16 -> bool, fmt: bytes, k: nat, behind: bytes)
    requires k < |vols| && MagicAt(behind).Some?
    ensures ItemOk(HeaderItem(Plain))
    ensures var header, rest := EncItemOf(1, HeaderItem(Plain)), ReadLoop(vols, sel, At(1, fmt, k, behind));
            && ReadLoop(vols, sel, At(1, fmt, k, header + behind)) == Prepend(Wanted(sel, HeaderItem(Plain)), 0, rest)
            && ReadLoop(vols, sel, At(1, fmt, k, MagicBytes(FSIN) + (header + behind))) == Prepend([], 1, rest)
  {
    hide ReadLoop, MagicAt, EncItemOf, EncHeader;
    PlainEncoded();
    var header := EncItemOf(1, HeaderItem(Plain));
    ReadSeg(vols, sel, At(1, fmt, k, header + behind), Good(HeaderItem(Plain)), behind);
    StrayMagicHides(vols, sel, At(1, fmt, k, MagicBytes(FSIN) + (header + behind)), FSIN, Plain, behind);
    var left := header[4..];
    assert (header + behind)[4..] == left + behind;
    PlainBytes(left);
    ResyncPastClean(left, behind);
    SameSearch(vols, sel, At(1, fmt, k, left + behind), behind);
  }

  lemma {:induction false} FoundHere(vols: seq<bytes>, sel: u16 -> bool, p: Place, tail: bytes)
    requires p.At? && p.k < |vols| && Resync(p.s) == tail
    ensures Finds(vols, sel, p, p.k, tail)
  {}

  lemma {:induction false} SameSearch(vols: seq<bytes>, sel: u16 -> bool, p: Place, tail: bytes)
    requires p.At? && p.k < |vols| && MagicAt(tail).Some? && Resync(p.s) == tail
    ensures ReadLoop(vols, sel, p) == ReadLoop(vols, sel, p.(s := tail))
  {
    hide MagicOf, HeaderAt, AfterFooter, Format.ReadBlock;
    assert ReadHeader(p.s, p.archid, true) == ReadHeader(tail, p.archid, true);
    assert Round(vols, sel, p) == Round(vols, sel, p.(s := tail));
  }

  lemma {:induction false} MinorRound(vols: seq<bytes>, sel: u16 -> bool, p: Place, rest: bytes)
    requires p.At? && p.k < |vols| && ReadHeader(p.s, p.archid, true) == HeaderMinor(rest)
    ensures ReadLoop(vols, sel, p) == Prepend([], 1, ReadLoop(vols, sel, p.(s := rest)))
  {
  }

  // ---- what may stand in a volume

  /** A piece of a volume: an item as it was written, a block whose data have been altered, a header
      whose dictionary has been altered, a block with such a header, or other bytes. */
  datatype Seg =
    | Good(item: Item)
    | BadBlock(block: Block, raw: bytes)
    | BadHeader(magic: Magic, fsid: u16, body: bytes, sum: u32)
    | LostBlock(fsid: u16, body: bytes, sum: u32, raw: bytes)
    | Junk(raw: bytes)

  /** What the writing thread is given: volume management and block headers are its own. */
  predicate ItemOk(item: Item) {
    match item
    case HeaderItem(h) => h.magic != VOLF && h.magic != BLKH && Printable(h.dico) && |h.dico| < 0x1_0000
    case BlockItem(b) => BlockOk(b)
  }

  function EncItemOf(archid: u32, item: Item): bytes
    requires ItemOk(item)
  {
    match item
    case HeaderItem(h) => EncHeader(h.magic, archid, h.fsid, h.dico)
    case BlockItem(b) => EncBlock(b, archid)
  }

  predicate SegOk(archid: u32, seg: Seg) {
    match seg
    case Good(item) => ItemOk(item)
    case BadBlock(b, raw) =>
      BlockOk(b) && |raw| == b.arSize && Fletcher.Checksum(raw) != b.arcSum && Skippable(archid, raw)
    case BadHeader(_, _, body, sum) => |body| < 0x1_0000_0000 && Fletcher.Checksum(body) != sum
    case LostBlock(_, body, sum, raw) =>
      |body| < 0x1_0000_0000 && Fletcher.Checksum(body) != sum && Skippable(archid, raw)
    case Junk(raw) => Skippable(archid, raw)
  }

  function EncBadHeader(archid: u32, magic: Magic, fsid: u16, body: bytes, sum: u32): bytes
    requires |body| < 0x1_0000_0000
  {
    MagicBytes(magic) + Le32(archid) + Le16(fsid) + (Le32(|body|) + body + Le32(sum))
  }

  function EncSeg(archid: u32, seg: Seg): bytes
    requires SegOk(archid, seg)
  {
    match seg
    case Good(item) => EncItemOf(archid, item)
    case BadBlock(b, raw) => EncBlock(b.(data := raw), archid)
    case BadHeader(magic, fsid, body, sum) => EncBadHeader(archid, magic, fsid, body, sum)
    case LostBlock(fsid, body, sum, raw) => EncBadHeader(archid, BLKH, fsid, body, sum) + raw
    case Junk(raw) => raw
  }

  /** Behind these the search for a magic goes on. */
  predicate Searches(seg: Seg) {
    seg.BadBlock? || seg.LostBlock? || seg.Junk?
  }

  predicate SegsOk(archid: u32, segs: seq<Seg>) {
    && (forall i :: 0 <= i < |segs| ==> SegOk(archid, segs[i]))
    && (forall i :: 0 <= i < |segs| - 1 ==> Searches(segs[i]) ==> !segs[i + 1].Junk?)
  }

  function EncSegs(archid: u32, segs: seq<Seg>): bytes
    requires SegsOk(archid, segs)
  {
    if segs == [] then [] else EncSeg(archid, segs[0]) + EncSegs(archid, segs[1..])
  }

  // ---- what the reader makes of it

  /** The item a consumer sees, if the filesystem is wanted: the filesystem id of a block is lost. */
  function Wanted(sel: u16 -> bool, item: Item): seq<Input> {
    match item
    case HeaderItem(h) => if h.fsid == FILESYSID_NULL || sel(h.fsid) then [Input(item, Done)] else []
    case BlockItem(b) => if sel(b.fsid) then [Input(BlockItem(b.(fsid := 0)), Todo)] else []
  }

  /** An altered block becomes zeros of the same size, an altered header is lost, with its block if it has
      one, and nothing else changes. */
  function Yield(sel: u16 -> bool, seg: Seg): Result {
    match seg
    case Good(item) => Result(Wanted(sel, item), 0, true)
    case BadBlock(b, raw) =>
      if sel(b.fsid)
      then Result([Input(BlockItem(b.(fsid := 0, data := Zeros(b.realSize))), Done)], 1 + Foreign(raw), true)
      else Result([], 0, true)
    case BadHeader(_, _, _, _) => Result([], 1, true)
    case LostBlock(_, _, _, raw) => Result([], 1 + Foreign(raw), true)
    case Junk(raw) => Result([], Foreign(raw), true)
  }

  function YieldAll(sel: u16 -> bool, segs: seq<Seg>): Result {
    if segs == [] then Result([], 0, true)
    else Prepend(Yield(sel, segs[0]).inputs, Yield(sel, segs[0]).errors, YieldAll(sel, segs[1..]))
  }

  predicate Ready(vols: seq<bytes>, p: Place) {
    p.At? && p.k < |vols| && p.archid != 0
  }

  lemma {:induction false} OneRound(vols: seq<bytes>, sel: u16 -> bool, p: Place, r: RoundResult)
    requires p.At? && p.k < |vols| && Round(vols, sel, p) == r
    ensures ReadLoop(vols, sel, p) == Prepend(r.inputs, r.errors, ReadLoop(vols, sel, r.place))
  {
  }

  lemma {:induction false} ReadGoodHeader(vols: seq<bytes>, sel: u16 -> bool, p: Place, h: Header, tail: bytes)
    requires Ready(vols, p) && ItemOk(HeaderItem(h)) && p.s == EncHeader(h.magic, p.archid, h.fsid, h.dico) + tail
    ensures ReadLoop(vols, sel, p) == Prepend(Wanted(sel, HeaderItem(h)), 0, ReadLoop(vols, sel, p.(s := tail)))
  {
    hide EncHeader, ReadHeader, ReadLoop;
    HeaderRoundTrip(h.magic, p.archid, h.fsid, h.dico, tail, p.archid, true);
    OneRound(vols, sel, p, RoundResult(Wanted(sel, HeaderItem(h)), 0, p.(s := tail)));
  }

  /** The header of a block, whatever its data have become. */
  lemma {:induction false} ReadBlockHeader(vols: seq<bytes>, sel: u16 -> bool, p: Place, b: Block,
                                           raw: bytes, tail: bytes)
    requires Ready(vols, p) && BlockOk(b) && p.s == EncBlock(b.(data := raw), p.archid) + tail
    ensures Round(vols, sel, p) == AfterBlockHeader(p, BlockDico(b), raw + tail, !sel(b.fsid))
  {
    hide EncHeader, ReadHeader, Format.ReadBlock;
    BlockDicoPrintable(b);
    assert BlockDico(b.(data := raw)) == BlockDico(b);
    HeaderRoundTrip(BLKH, p.archid, b.fsid, BlockDico(b), raw + tail, p.archid, true);
    assert p.s == EncHeader(BLKH, p.archid, b.fsid, BlockDico(b)) + (raw + tail);
  }

  lemma {:induction false} ReadGoodBlock(vols: seq<bytes>, sel: u16 -> bool, p: Place, b: Block, tail: bytes)
    requires Ready(vols, p) && BlockOk(b) && p.s == EncBlock(b, p.archid) + tail
    ensures ReadLoop(vols, sel, p) == Prepend(Wanted(sel, BlockItem(b)), 0, ReadLoop(vols, sel, p.(s := tail)))
  {
    hide EncBlock, Round, ReadLoop, Format.ReadBlock, BlockDico;
    assert b.(data := b.data) == b;
    ReadBlockHeader(vols, sel, p, b, b.data, tail);
    BlockDataRead(b, b.data, tail);
    OneRound(vols, sel, p, RoundResult(Wanted(sel, BlockItem(b)), 0, p.(s := tail)));
  }

  lemma {:induction false} ReadBadBlock(vols: seq<bytes>, sel: u16 -> bool, p: Place, b: Block, raw: bytes, tail: bytes)
    requires Ready(vols, p) && SegOk(p.archid, BadBlock(b, raw)) && MagicAt(tail).Some?
    requires p.s == EncBlock(b.(data := raw), p.archid) + tail
    ensures var y := Yield(sel, BadBlock(b, raw));
            ReadLoop(vols, sel, p) == Prepend(y.inputs, y.errors, ReadLoop(vols, sel, p.(s := tail)))
  {
    hide EncBlock, Round, ReadLoop, Format.ReadBlock, BlockDico, Skippable, Foreign, MagicAt;
    ReadBlockHeader(vols, sel, p, b, raw, tail);
    BlockDataRead(b, raw, tail);
    if sel(b.fsid) {
      var zeros := [Input(BlockItem(b.(fsid := 0, data := Zeros(b.realSize))), Done)];
      OneRound(vols, sel, p, RoundResult(zeros, 1, p.(s := raw + tail)));
      SkipJunk(vols, sel, p.(s := raw + tail), raw, tail);
      PrependTwice(zeros, 1, [], Foreign(raw), ReadLoop(vols, sel, p.(s := tail)));
      assert zeros + [] == zeros;
    } else {
      OneRound(vols, sel, p, RoundResult([], 0, p.(s := tail)));
    }
  }

  lemma {:induction false} BadDicoRead(body: bytes, sum: u32, tail: bytes)
    requires |body| < 0x1_0000_0000 && Fletcher.Checksum(body) != sum
    ensures ReadDico(Le32(|body|) + body + Le32(sum) + tail) == DicoMinor(tail)
  {
    var s := Le32(|body|) + body + Le32(sum) + tail;
    DecodeEncode32(|body|);
    DecodeEncode32(sum);
    assert s[..4] == Le32(|body|) && s[4..] == body + (Le32(sum) + tail);
    assert s[4..][..|body|] == body && s[4..][|body|..] == Le32(sum) + tail;
    assert s[4..][|body|..][..4] == Le32(sum) && s[4..][|body|..][4..] == tail;
  }

  lemma {:induction false} ReadBadHeader(vols: seq<bytes>, sel: u16 -> bool, p: Place, seg: Seg, tail: bytes)
    requires Ready(vols, p) && seg.BadHeader? && SegOk(p.archid, seg) && p.s == EncSeg(p.archid, seg) + tail
    ensures ReadLoop(vols, sel, p) == Prepend([], 1, ReadLoop(vols, sel, p.(s := tail)))
  {
    hide ReadHeader, ReadDico, MagicBytes, ReadLoop, Le32, Le16, Fletcher.Checksum, AfterFooter, Format.ReadBlock;
    var dico := Le32(|seg.body|) + seg.body + Le32(seg.sum) + tail;
    assert p.s == MagicBytes(seg.magic) + (Le32(p.archid) + (Le16(seg.fsid) + dico));
    HeaderPrefix(seg.magic, p.archid, seg.fsid, dico, p.archid, true);
    BadDicoRead(seg.body, seg.sum, tail);
    MinorRound(vols, sel, p, tail);
  }

  /** A block without a header: its data are junk. */
  lemma {:induction false} ReadLostBlock(vols: seq<bytes>, sel: u16 -> bool, p: Place, seg: Seg, tail: bytes)
    requires Ready(vols, p) && seg.LostBlock? && SegOk(p.archid, seg) && p.s == EncSeg(p.archid, seg) + tail
    requires MagicAt(tail).Some?
    ensures ReadLoop(vols, sel, p) == Prepend([], 1 + Foreign(seg.raw), ReadLoop(vols, sel, p.(s := tail)))
  {
    hide EncBadHeader, ReadLoop, Skippable, Foreign, MagicAt, Fletcher.Checksum;
    var head := BadHeader(BLKH, seg.fsid, seg.body, seg.sum);
    assert p.s == EncSeg(p.archid, head) + (seg.raw + tail);
    ReadBadHeader(vols, sel, p, head, seg.raw + tail);
    SkipJunk(vols, sel, p.(s := seg.raw + tail), seg.raw, tail);
    PrependTwice([], 1, [], Foreign(seg.raw), ReadLoop(vols, sel, p.(s := tail)));
  }

  lemma {:induction false} ReadSeg(vols: seq<bytes>, sel: u16 -> bool, p: Place, seg: Seg, tail: bytes)
    requires Ready(vols, p) && SegOk(p.archid, seg) && p.s == EncSeg(p.archid, seg) + tail
    requires Searches(seg) ==> MagicAt(tail).Some?
    ensures ReadLoop(vols, sel, p) ==
            Prepend(Yield(sel, seg).inputs, Yield(sel, seg).errors, ReadLoop(vols, sel, p.(s := tail)))
  {
    hide EncHeader, EncBlock, ReadLoop, MagicAt;
    match seg {
      case Good(HeaderItem(h)) => ReadGoodHeader(vols, sel, p, h, tail);
      case Good(BlockItem(b)) => ReadGoodBlock(vols, sel, p, b, tail);
      case BadBlock(b, raw) => ReadBadBlock(vols, sel, p, b, raw, tail);
      case BadHeader(_, _, _, _) => ReadBadHeader(vols, sel, p, seg, tail);
      case LostBlock(_, _, _, _) => ReadLostBlock(vols, sel, p, seg, tail);
      case Junk(raw) => SkipJunk(vols, sel, p, raw, tail);
    }
  }

  lemma {:induction false} StartsWithMagic(archid: u32, seg: Seg, tail: bytes)
    requires SegOk(archid, seg) && !seg.Junk?
    ensures MagicAt(EncSeg(archid, seg) + tail).Some?
  {
    hide MagicOf, EncDico, EncBadHeader, EncBlock, Skippable;
    match seg {
      case Good(HeaderItem(h)) =>
        MagicAtBytes(h.magic, Le32(archid) + Le16(h.fsid) + EncDico(h.dico) + tail);
        assert EncSeg(archid, seg) + tail ==
               MagicBytes(h.magic) + (Le32(archid) + Le16(h.fsid) + EncDico(h.dico) + tail);
      case Good(BlockItem(b)) => BlockStartsWithMagic(archid, b, tail);
      case BadBlock(b, raw) => BlockStartsWithMagic(archid, b.(data := raw), tail);
      case BadHeader(magic, fsid, body, sum) => BadStartsWithMagic(archid, magic, fsid, body, sum, tail);
      case LostBlock(fsid, body, sum, raw) =>
        BadStartsWithMagic(archid, BLKH, fsid, body, sum, raw + tail);
        assert EncSeg(archid, seg) + tail == EncBadHeader(archid, BLKH, fsid, body, sum) + (raw + tail);
    }
  }

  lemma {:induction false} BadStartsWithMagic(archid: u32, magic: Magic, fsid: u16, body: bytes, sum: u32, tail: bytes)
    requires |body| < 0x1_0000_0000
    ensures MagicAt(EncBadHeader(archid, magic, fsid, body, sum) + tail).Some?
  {
    hide MagicOf;
    var rest := Le32(archid) + Le16(fsid) + (Le32(|body|) + body + Le32(sum)) + tail;
    MagicAtBytes(magic, rest);
    assert EncBadHeader(archid, magic, fsid, body, sum) + tail == MagicBytes(magic) + rest;
  }

  lemma {:induction false} BlockStartsWithMagic(archid: u32, b: Block, tail: bytes)
    ensures MagicAt(EncBlock(b, archid) + tail).Some?
  {
    hide MagicOf, EncDico;
    BlockDicoPrintable(b);
    var rest := Le32(archid) + Le16(b.fsid) + EncDico(BlockDico(b)) + b.data + tail;
    MagicAtBytes(BLKH, rest);
    assert EncBlock(b, archid) + tail == MagicBytes(BLKH) + rest;
  }

  /** A whole stretch of pieces is read piece by piece. */
  lemma {:induction false} ReadSegs(vols: seq<bytes>, sel: u16 -> bool, p: Place, segs: seq<Seg>, tail: bytes)
    requires Ready(vols, p) && SegsOk(p.archid, segs) && p.s == EncSegs(p.archid, segs) + tail && MagicAt(tail).Some?
    ensures var y := YieldAll(sel, segs);
            ReadLoop(vols, sel, p) == Prepend(y.inputs, y.errors, ReadLoop(vols, sel, p.(s := tail)))
    decreases |segs|
  {
    hide EncSeg, ReadLoop, SegOk, Yield, MagicAt;
    if segs == [] {
      assert p.s == tail;
    } else {
      var next := EncSegs(p.archid, segs[1..]) + tail;
      assert p.s == EncSeg(p.archid, segs[0]) + next;
      if segs[1..] == [] {
        assert next == tail;
      } else if Searches(segs[0]) {
        StartsWithMagic(p.archid, segs[1], EncSegs(p.archid, segs[2..]) + tail);
        assert segs[1..][1..] == segs[2..];
        assert next == EncSeg(p.archid, segs[1]) + (EncSegs(p.archid, segs[2..]) + tail);
      }
      ReadSeg(vols, sel, p, segs[0], next);
      ReadSegs(vols, sel, p.(s := next), segs[1..], tail);
      var y, z := Yield(sel, segs[0]), YieldAll(sel, segs[1..]);
      PrependTwice(y.inputs, y.errors, z.inputs, z.errors, ReadLoop(vols, sel, p.(s := tail)));
    }
  }

  // ---- whole archives

  function EncVol(archid: u32, k: u32, segs: seq<Seg>, last: bool): bytes
    requires SegsOk(archid, segs)
  {
    EncVolHead(archid, k) + (EncSegs(archid, segs) + EncVolFoot(archid, k, last))
  }

  /** The pieces of every volume, in order. */
  predicate LayoutOk(archid: u32, layout: seq<seq<Seg>>) {
    0 < |layout| < 0x1_0000_0000 && forall k :: 0 <= k < |layout| ==> SegsOk(archid, layout[k])
  }

  /** Volume k starts with header number k, and only the last footer says that it is the last. */
  predicate Stored(archid: u32, layout: seq<seq<Seg>>, vols: seq<bytes>)
    requires LayoutOk(archid, layout)
  {
    |vols| == |layout| && forall k :: 0 <= k < |vols| ==> vols[k] == EncVol(archid, k, layout[k], k + 1 == |vols|)
  }

  function YieldLayout(sel: u16 -> bool, layout: seq<seq<Seg>>): Result {
    if layout == [] then Result([], 0, true)
    else
      var y := YieldAll(sel, layout[0]);
      Prepend(y.inputs, y.errors, YieldLayout(sel, layout[1..]))
  }

  lemma {:induction false} ReadFoot(vols: seq<bytes>, sel: u16 -> bool, p: Place, k: u32, last: bool)
    requires Ready(vols, p) && p.s == EncVolFoot(p.archid, k, last)
    ensures MagicAt(p.s).Some?
    ensures last ==> ReadLoop(vols, sel, p) == Result([], 0, true)
    ensures !last && p.k + 1 < |vols| && DetectVersion(vols[p.k + 1]) == 2 ==>
              match VolHeaderAt(vols[p.k + 1], p.archid, p.fmt, p.k + 1)
              case VolBad => true
              case VolOk(id, fmt, next) => ReadLoop(vols, sel, p) == ReadLoop(vols, sel, At(id, fmt, p.k + 1, next))
  {
    hide EncHeader, ReadHeader, VolHeaderAt, DetectVersion, MagicAt, GetU32, EncVolFoot, VolFootDico;
    FootFields(p.archid, k, last);
    FootRead(p.archid, k, last);
    FootStartsWithMagic(p.archid, k, last);
  }

  lemma {:induction false} FootRead(archid: u32, k: u32, last: bool)
    ensures ReadHeader(EncVolFoot(archid, k, last), archid, true) ==
            HeaderOk(VOLF, FILESYSID_NULL, VolFootDico(archid, k, last), [])
  {
    hide EncHeader, ReadHeader, VolFootDico;
    FootIsHeader(archid, k, last);
    FootSize(archid, k, last);
    hide EncVolFoot;
    assert EncVolFoot(archid, k, last) + [] == EncVolFoot(archid, k, last);
    HeaderRoundTrip(VOLF, archid, FILESYSID_NULL, VolFootDico(archid, k, last), [], archid, true);
  }

  lemma {:induction false} FootSize(archid: u32, k: u32, last: bool)
    ensures |VolFootDico(archid, k, last)| < 0x1_0000
  {}

  lemma {:induction false} FootIsHeader(archid: u32, k: u32, last: bool)
    ensures Printable(VolFootDico(archid, k, last))
    ensures EncVolFoot(archid, k, last) == EncHeader(VOLF, archid, FILESYSID_NULL, VolFootDico(archid, k, last))
  {
    ShortPrintable(VolFootDico(archid, k, last));
  }

  lemma {:induction false} FootStartsWithMagic(archid: u32, k: u32, last: bool)
    ensures MagicAt(EncVolFoot(archid, k, last)).Some?
  {
    hide MagicOf, EncDico;
    var d := VolFootDico(archid, k, last);
    ShortPrintable(d);
    MagicAtBytes(VOLF, Le32(archid) + Le16(FILESYSID_NULL) + EncDico(d));
    assert EncVolFoot(archid, k, last) == MagicBytes(VOLF) + (Le32(archid) + Le16(FILESYSID_NULL) + EncDico(d));
  }

  lemma {:induction false} NextHead(archid: u32, layout: seq<seq<Seg>>, vols: seq<bytes>, k: nat)
    requires LayoutOk(archid, layout) && Stored(archid, layout, vols) && k < |layout|
    ensures DetectVersion(vols[k]) == 2
    ensures forall known: u32, fmt: bytes :: (known == 0 || known == archid) && (fmt == [] || fmt == FMT_002) ==>
              VolHeaderAt(vols[k], known, fmt, k) ==
              VolOk(archid, FMT_002, EncSegs(archid, layout[k]) + EncVolFoot(archid, k, k + 1 == |layout|))
  {
    hide DetectVersion, VolHeaderAt, EncSegs, EncVol;
    VolumeOpens(archid, k, layout[k], k + 1 == |layout|);
  }

  /** What opening a volume finds. */
  lemma {:induction false} VolumeOpens(archid: u32, k: u32, segs: seq<Seg>, last: bool)
    requires SegsOk(archid, segs)
    ensures var vol := EncVol(archid, k, segs, last);
            && DetectVersion(vol) == 2
            && forall known: u32, fmt: bytes :: (known == 0 || known == archid) && (fmt == [] || fmt == FMT_002) ==>
                 VolHeaderAt(vol, known, fmt, k) ==
                 VolOk(archid, FMT_002, EncSegs(archid, segs) + EncVolFoot(archid, k, last))
  {
    hide DetectVersion, VolHeaderAt, EncSegs, EncVolHead, EncVolFoot;
    var tail := EncSegs(archid, segs) + EncVolFoot(archid, k, last);
    var vol := EncVol(archid, k, segs, last);
    assert vol == EncVolHead(archid, k) + tail;
    RecognisedAsFormat2(archid, k, tail);
    forall known: u32, fmt: bytes | (known == 0 || known == archid) && (fmt == [] || fmt == FMT_002)
      ensures VolHeaderAt(vol, known, fmt, k) == VolOk(archid, FMT_002, tail)
    {
      VolHeadRead(archid, k, tail, known, fmt, k);
    }
  }

  lemma {:induction false} ReadVolumes(archid: u32, layout: seq<seq<Seg>>, vols: seq<bytes>, sel: u16 -> bool, k: nat,
                                       segs: seq<Seg>)
    requires archid != 0 && LayoutOk(archid, layout) && Stored(archid, layout, vols) && k < |layout|
    requires SegsOk(archid, segs)
    ensures var y := YieldAll(sel, segs);
            ReadLoop(vols, sel, At(archid, FMT_002, k, EncSegs(archid, segs) +
                                   EncVolFoot(archid, k, k + 1 == |layout|))) ==
            Prepend(y.inputs, y.errors, YieldLayout(sel, layout[k + 1..]))
    decreases |layout| - k
  {
    hide ReadLoop, EncSegs, EncVolFoot, DetectVersion, VolHeaderAt, YieldAll, SegsOk, MagicAt;
    var last := k + 1 == |layout|;
    var foot := EncVolFoot(archid, k, last);
    var p := At(archid, FMT_002, k, EncSegs(archid, segs) + foot);
    ReadFoot(vols, sel, p.(s := foot), k, last);
    ReadSegs(vols, sel, p, segs, foot);
    if !last {
      NextHead(archid, layout, vols, k + 1);
      ReadVolumes(archid, layout, vols, sel, k + 1, layout[k + 1]);
      assert layout[k + 1..][1..] == layout[k + 2..];
    }
  }

  /** Whatever pieces the volumes are made of, the reading thread recovers every good item of the wanted
      filesystems, in order, up to the end of the archive: altered blocks become zeros, altered headers
      are lost, and nothing else is disturbed. */
  lemma {:induction false} ReadDamagedArchive(archid: u32, layout: seq<seq<Seg>>, vols: seq<bytes>,
                                              sel: u16 -> bool, main: Header)
    requires archid != 0 && LayoutOk(archid, layout) && Stored(archid, layout, vols)
    requires layout[0] != [] && layout[0][0] == Good(HeaderItem(main))
    requires main.fsid == FILESYSID_NULL && GetU32(main.dico, 0, MH_ARCHIVEID) == Some(archid)
    ensures ReadArchive(vols, sel) == YieldLayout(sel, layout)
  {
    hide ReadLoop, ReadHeader, EncVolFoot, DetectVersion, VolHeaderAt, GetU32, EncHeader, EncSegs, SegsOk, YieldAll;
    var segs := layout[0][1..];
    var foot := EncVolFoot(archid, 0, 1 == |layout|);
    var tail := MainFirst(archid, layout[0], main, foot);
    NextHead(archid, layout, vols, 0);
    HeaderRoundTrip(main.magic, archid, main.fsid, main.dico, tail, archid, false);
    ReadVolumes(archid, layout, vols, sel, 0, segs);
    var y := YieldAll(sel, segs);
    PrependTwice([Input(HeaderItem(main), Done)], 0, y.inputs, y.errors, YieldLayout(sel, layout[1..]));
    YieldMain(sel, layout[0], main);
  }

  // ---- missing volumes

  /** No volume m of this archive is there: none at all, or another file, or another volume. */
  predicate Unusable(archid: u32, vols: seq<bytes>, m: nat) {
    m >= |vols| || DetectVersion(vols[m]) != 2 || VolHeaderAt(vols[m], archid, FMT_002, m).VolBad?
  }

  lemma {:induction false} FootStops(vols: seq<bytes>, sel: u16 -> bool, p: Place, k: u32)
    requires Ready(vols, p) && p.fmt == FMT_002 && p.s == EncVolFoot(p.archid, k, false)
    requires Unusable(p.archid, vols, p.k + 1)
    ensures ReadLoop(vols, sel, p) == Stop
  {
    hide EncHeader, ReadHeader, VolHeaderAt, DetectVersion, MagicAt, GetU32, EncVolFoot, VolFootDico;
    FootFields(p.archid, k, false);
    FootRead(p.archid, k, false);
  }

  /** The first m volumes are as they were written, and the next is not there. */
  predicate StoredUpTo(archid: u32, layout: seq<seq<Seg>>, vols: seq<bytes>, m: nat)
    requires LayoutOk(archid, layout)
  {
    && 0 < m < |layout| && m <= |vols| && Unusable(archid, vols, m)
    && forall k :: 0 <= k < m ==> vols[k] == EncVol(archid, k, layout[k], false)
  }

  lemma {:induction false} ReadUpTo(archid: u32, layout: seq<seq<Seg>>, vols: seq<bytes>, sel: u16 -> bool, m: nat,
                                    k: nat, segs: seq<Seg>)
    requires archid != 0 && LayoutOk(archid, layout) && StoredUpTo(archid, layout, vols, m) && k < m
    requires SegsOk(archid, segs)
    ensures var y := YieldAll(sel, segs);
            ReadLoop(vols, sel, At(archid, FMT_002, k, EncSegs(archid, segs) + EncVolFoot(archid, k, false))) ==
            Prepend(y.inputs, y.errors, YieldLayout(sel, layout[k + 1..m]).(complete := false))
    decreases m - k
  {
    hide ReadLoop, EncSegs, EncVolFoot, DetectVersion, VolHeaderAt, YieldAll, SegsOk, MagicAt, Unusable;
    var foot := EncVolFoot(archid, k, false);
    var p := At(archid, FMT_002, k, EncSegs(archid, segs) + foot);
    FootStartsWithMagic(archid, k, false);
    ReadSegs(vols, sel, p, segs, foot);
    if k + 1 == m {
      FootStops(vols, sel, p.(s := foot), k);
      assert layout[k + 1..m] == [];
    } else {
      ReadFoot(vols, sel, p.(s := foot), k, false);
      VolumeOpens(archid, k + 1, layout[k + 1], false);
      ReadUpTo(archid, layout, vols, sel, m, k + 1, layout[k + 1]);
      assert layout[k + 1..m][1..] == layout[k + 2..m] && layout[k + 1..m][0] == layout[k + 1];
    }
  }

  /** When a volume is missing, everything in the volumes before it is read, and the archive is reported as
      incomplete. */
  lemma {:induction false} ReadUpToMissing(archid: u32, layout: seq<seq<Seg>>, vols: seq<bytes>, sel: u16 -> bool,
                                           main: Header, m: nat)
    requires archid != 0 && LayoutOk(archid, layout) && StoredUpTo(archid, layout, vols, m)
    requires layout[0] != [] && layout[0][0] == Good(HeaderItem(main))
    requires main.fsid == FILESYSID_NULL && GetU32(main.dico, 0, MH_ARCHIVEID) == Some(archid)
    ensures ReadArchive(vols, sel) == YieldLayout(sel, layout[..m]).(complete := false)
  {
    hide ReadLoop, ReadHeader, EncVolFoot, DetectVersion, VolHeaderAt, GetU32, EncHeader, EncSegs, SegsOk, YieldAll;
    hide Unusable;
    var segs := layout[0][1..];
    var foot := EncVolFoot(archid, 0, false);
    var tail := MainFirst(archid, layout[0], main, foot);
    VolumeOpens(archid, 0, layout[0], false);
    HeaderRoundTrip(main.magic, archid, main.fsid, main.dico, tail, archid, false);
    ReadUpTo(archid, layout, vols, sel, m, 0, segs);
    var y := YieldAll(sel, segs);
    PrependTwice([Input(HeaderItem(main), Done)], 0, y.inputs, y.errors,
                 YieldLayout(sel, layout[1..m]).(complete := false));
    YieldMain(sel, layout[0], main);
    assert layout[..m][1..] == layout[1..m] && layout[..m][0] == layout[0];
  }

  lemma {:induction false} MainFirst(archid: u32, segs: seq<Seg>, main: Header, foot: bytes) returns (tail: bytes)
    requires SegsOk(archid, segs) && segs != [] && segs[0] == Good(HeaderItem(main))
    ensures ItemOk(HeaderItem(main)) && SegsOk(archid, segs[1..])
    ensures tail == EncSegs(archid, segs[1..]) + foot
    ensures EncSegs(archid, segs) + foot == EncHeader(main.magic, archid, main.fsid, main.dico) + tail
  {
    hide EncHeader;
    assert SegOk(archid, segs[0]);
    tail := EncSegs(archid, segs[1..]) + foot;
  }

  lemma {:induction false} YieldMain(sel: u16 -> bool, segs: seq<Seg>, main: Header)
    requires segs != [] && segs[0] == Good(HeaderItem(main)) && main.fsid == FILESYSID_NULL
    ensures YieldAll(sel, segs) == Prepend([Input(HeaderItem(main), Done)], 0, YieldAll(sel, segs[1..]))
  {
  }
}
