/** What opens and closes every volume, and how both are recognised. */
module Volumes {
  import opened Bytes
  import opened ArchiveItems
  import opened Dico
  import opened Format
  import opened Reader
  import Fletcher

  const VERSION: bytes := [0x30, 0x2e, 0x38, 0x2e, 0x31, 0x30, 0x2d, 0x67, 0x69, 0x74] // 0.8.10-git

  function VolHeadDico(archid: u32, k: u32): seq<DicoItem> {
    [U32Item(0, VH_VOLNUM, k), U32Item(0, VH_ARCHID, archid),
     StringItem(0, VH_FILEFORMATVER, FMT_002), StringItem(0, VH_PROGVERCREAT, VERSION)]
  }

  function VolFootDico(archid: u32, k: u32, last: bool): seq<DicoItem> {
    [U32Item(0, VF_VOLNUM, k), U32Item(0, VF_ARCHID, archid), U32Item(0, VF_LASTVOL, if last then 1 else 0)]
  }

  function EncVolHead(archid: u32, k: u32): bytes {
    ShortPrintable(VolHeadDico(archid, k));
    EncHeader(VOLH, archid, FILESYSID_NULL, VolHeadDico(archid, k))
  }

  function EncVolFoot(archid: u32, k: u32, last: bool): bytes {
    ShortPrintable(VolFootDico(archid, k, last));
    EncHeader(VOLF, archid, FILESYSID_NULL, VolFootDico(archid, k, last))
  }

  // ---- sizes do not depend on the numbers

  const HEAD_SIZE := 4 + 4 + 2 + 4 + (2 + (6 + 4) + (6 + 4) + (6 + 11) + (6 + 11)) + 4
  const FOOT_SIZE := 4 + 4 + 2 + 4 + (2 + (6 + 4) + (6 + 4) + (6 + 4)) + 4

  function BodySize(d: seq<DicoItem>): nat {
    if d == [] then 0 else 6 + |d[0].data| + BodySize(d[1..])
  }

  lemma {:induction false} EncItemsSize(d: seq<DicoItem>)
    requires forall i :: 0 <= i < |d| ==> Storable(d[i])
    ensures |EncItems(d)| == BodySize(d)
  {
    if d != [] {
      EncItemsSize(d[1..]);
    }
  }

  lemma {:induction false} BodySize3(a: DicoItem, b: DicoItem, c: DicoItem)
    ensures BodySize([a, b, c]) == 18 + |a.data| + |b.data| + |c.data|
  {
    assert [c][1..] == [] && [b, c][1..] == [c] && [a, b, c][1..] == [b, c];
    assert BodySize([c]) == 6 + |c.data|;
    assert BodySize([b, c]) == 6 + |b.data| + BodySize([c]);
  }

  lemma {:induction false} VolumeOverhead(archid: u32, k: u32, last: bool)
    ensures |EncVolHead(archid, k)| == HEAD_SIZE && |EncVolFoot(archid, k, last)| == FOOT_SIZE
  {
    var h, f := VolHeadDico(archid, k), VolFootDico(archid, k, last);
    EncItemsSize(h);
    EncItemsSize(f);
    assert h[1..] == [h[1], h[2], h[3]];
    BodySize3(h[1], h[2], h[3]);
    BodySize3(f[0], f[1], f[2]);
  }

  const BLOCKHEAD_SIZE := 4 + 4 + 2 + 4 + (2 + (6 + 8) + 4 * (6 + 4) + 2 * (6 + 2)) + 4

  lemma {:induction false} BlockOverhead(archid: u32, b: Block)
    ensures |EncBlock(b, archid)| == BLOCKHEAD_SIZE + |b.data|
  {
    var d := BlockDico(b);
    BlockDicoPrintable(b);
    EncItemsSize(d);
    assert d[1..] == [d[1], d[2], d[3]] + [d[4], d[5], d[6]];
    BodySizeConcat([d[1], d[2], d[3]], [d[4], d[5], d[6]]);
    BodySize3(d[1], d[2], d[3]);
    BodySize3(d[4], d[5], d[6]);
  }

  lemma {:induction false} BodySizeConcat(a: seq<DicoItem>, b: seq<DicoItem>)
    ensures BodySize(a + b) == BodySize(a) + BodySize(b)
  {
    if a == [] {
      assert a + b == b;
    } else {
      BodySizeConcat(a[1..], b);
      assert (a + b)[1..] == a[1..] + b;
    }
  }

  // ---- recognition

  lemma {:induction false} HeadFields(archid: u32, k: u32)
    ensures var d := VolHeadDico(archid, k);
            && GetU32(d, 0, VH_VOLNUM) == Some(k) && GetU32(d, 0, VH_ARCHID) == Some(archid)
            && Get(d, 0, VH_FILEFORMATVER, MAX_FILEFMTLEN) == Got(FMT_002 + [0])
            && Get(d, 0, VH_PROGVERCREAT, MAX_PROGVERLEN) == Got(VERSION + [0])
  {
    var d := VolHeadDico(archid, k);
    GetItemAt(d, 0);
    GetItemAt(d, 1);
    GetItemAt(d, 2);
    GetItemAt(d, 3);
  }

  lemma {:induction false} FootFields(archid: u32, k: u32, last: bool)
    ensures var d := VolFootDico(archid, k, last);
            && GetU32(d, 0, VF_VOLNUM) == Some(k) && GetU32(d, 0, VF_ARCHID) == Some(archid)
            && GetU32(d, 0, VF_LASTVOL) == Some(if last then 1 else 0)
  {
    GetItemAt(VolFootDico(archid, k, last), 0);
    GetItemAt(VolFootDico(archid, k, last), 1);
    GetItemAt(VolFootDico(archid, k, last), 2);
  }

  /** The header of volume k is accepted as volume k of this archive and in this format, and as no other. */
  lemma {:induction false} VolHeadRead(archid: u32, k: u32, tail: bytes, known: u32, fmt: bytes, expected: nat)
    ensures VolHeaderAt(EncVolHead(archid, k) + tail, known, fmt, expected) ==
            if (known == 0 || known == archid) && (fmt == [] || fmt == FMT_002) && k == expected
            then VolOk(archid, FMT_002, tail)
            else VolBad
  {
    hide Format.ReadHeader, EncHeader, Get, GetU32;
    ShortPrintable(VolHeadDico(archid, k));
    HeadFields(archid, k);
    if known == 0 || known == archid {
      HeaderRoundTrip(VOLH, archid, FILESYSID_NULL, VolHeadDico(archid, k), tail, known, false);
    } else {
      OtherArchive(VOLH, archid, FILESYSID_NULL, VolHeadDico(archid, k), tail, known, false);
    }
    CStrOf(FMT_002);
  }

  lemma {:induction false} MatchesAt(s: bytes, i: nat, pattern: bytes)
    requires i + |pattern| <= |s| && s[i..i + |pattern|] == pattern
    ensures Matches(s, i, pattern)
    decreases |pattern|
  {
    if pattern != [] {
      assert s[i] == s[i..i + |pattern|][0];
      assert s[i + 1..i + 1 + |pattern[1..]|] == s[i..i + |pattern|][1..];
      MatchesAt(s, i + 1, pattern[1..]);
    }
  }

  lemma {:induction false} EncFourItems(a: DicoItem, b: DicoItem, c: DicoItem, d: DicoItem)
    requires Storable(a) && Storable(b) && Storable(c) && Storable(d)
    ensures EncItems([a, b, c, d]) == EncItem(a) + (EncItem(b) + (EncItem(c) + EncItem(d)))
  {
    hide EncItem;
    assert [d][1..] == [] && [c, d][1..] == [d] && [b, c, d][1..] == [c, d] && [a, b, c, d][1..] == [b, c, d];
    assert EncItems([d]) == EncItem(d) + [];
    assert EncItems([c, d]) == EncItem(c) + EncItems([d]);
    assert EncItems([b, c, d]) == EncItem(b) + EncItems([c, d]);
  }

  /** The bytes of a header with four items, regrouped around the data of the third. */
  lemma {:induction false} ThirdItemData(archid: u32, a: DicoItem, b: DicoItem, f: DicoItem, v: DicoItem)
    returns (before: bytes, after: bytes)
    requires Storable(a) && Storable(b) && Storable(f) && Storable(v) && Printable([a, b, f, v])
    ensures |before| == 20 + |EncItem(a)| + |EncItem(b)|
    ensures EncHeader(VOLH, archid, FILESYSID_NULL, [a, b, f, v]) == before + Le16(|f.data|) + (f.data + after)
  {
    hide Le16, Le32, MagicBytes, Fletcher.Checksum, EncItems, Printable;
    var d := [a, b, f, v];
    EncFourItems(a, b, f, v);
    var body := DicoBody(d);
    var c := Le32(Fletcher.Checksum(body));
    var start := MagicBytes(VOLH) + Le32(archid) + Le16(FILESYSID_NULL) + Le32(|body|) + Le16(4);
    var name := [f.typ, f.section] + Le16(f.key);
    before := start + EncItem(a) + EncItem(b) + name;
    after := EncItem(v) + c;
    assert EncItem(f) == name + Le16(|f.data|) + f.data;
    Regroup(start, EncItem(a), EncItem(b), name, Le16(|f.data|), f.data, EncItem(v), c);
    assert EncHeader(VOLH, archid, FILESYSID_NULL, d) == start + EncItems(d) + c;
  }

  lemma {:induction false} Regroup(s: bytes, a: bytes, b: bytes, n: bytes, l: bytes, f: bytes, d: bytes, c: bytes)
    ensures s + (a + (b + ((n + l + f) + d))) + c == s + a + b + n + l + (f + (d + c))
  {
  }

  /** The format name stands at offset 42, behind its own length at offset 40. */
  lemma {:induction false} FormatNameAt42(archid: u32, k: u32) returns (before: bytes, after: bytes)
    ensures |before| == 40 && EncVolHead(archid, k) == before + Le16(11) + (FMT_002 + after)
  {
    hide EncHeader, Printable;
    var d := VolHeadDico(archid, k);
    ShortPrintable(d);
    before, after := ThirdItemData(archid, d[0], d[1], d[2], d[3]);
    assert d == [d[0], d[1], d[2], d[3]];
    assert d[2].data + after == FMT_002 + ([0] + after);
    after := [0] + after;
  }

  /** Every volume written here is recognised as format 2. */
  lemma {:induction false} RecognisedAsFormat2(archid: u32, k: u32, tail: bytes)
    ensures DetectVersion(EncVolHead(archid, k) + tail) == 2
  {
    hide EncVolHead, Matches, Le16;
    var before, after := FormatNameAt42(archid, k);
    var vol := EncVolHead(archid, k) + tail;
    VolumeOverhead(archid, k, false);
    assert vol == before + Le16(11) + (FMT_002 + (after + tail));
    assert vol[42..42 + |FMT_002|] == FMT_002;
    MatchesAt(vol, 42, FMT_002);
    assert vol[40] == Le16(11)[0];
    LengthIsNotName(vol);
  }

  lemma {:induction false} LengthIsNotName(vol: bytes)
    requires |vol| > 40 && vol[40] == Le16(11)[0]
    ensures !Matches(vol, 40, FMT_001) && !Matches(vol, 40, FMT_00Y)
  {
    NoMatch(vol, 40, FMT_001);
    NoMatch(vol, 40, FMT_00Y);
  }

  lemma {:induction false} NoMatch(s: bytes, i: nat, pattern: bytes)
    requires i < |s| && pattern != [] && s[i] != pattern[0]
    ensures !Matches(s, i, pattern)
  {
  }
}
