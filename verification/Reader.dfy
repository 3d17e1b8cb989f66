/** The reading thread: volumes in, queue items out (src/archreader.c, src/thread_archio.c).
    `sel` says which filesystems the main thread wants. */
module Reader {
  import opened Bytes
  import opened ArchiveItems
  import opened Dico
  import opened Format
  import Fletcher

  // keys of volume headers, volume footers and the main header (src/fsarchiver.h)
  const VH_VOLNUM: u16 := 0
  const VH_ARCHID: u16 := 1
  const VH_FILEFORMATVER: u16 := 2
  const VH_PROGVERCREAT: u16 := 3
  const VF_VOLNUM: u16 := 0
  const VF_ARCHID: u16 := 1
  const VF_LASTVOL: u16 := 2
  const MH_ARCHIVEID: u16 := 3

  const FMT_001: bytes := [0x46, 0x73, 0x41, 0x72, 0x43, 0x68, 0x5f, 0x30, 0x30, 0x31] // FsArCh_001
  const FMT_00Y: bytes := [0x46, 0x73, 0x41, 0x72, 0x43, 0x68, 0x5f, 0x30, 0x30, 0x59] // FsArCh_00Y
  const FMT_002: bytes := [0x46, 0x73, 0x41, 0x72, 0x43, 0x68, 0x5f, 0x30, 0x30, 0x32] // FsArCh_002

  const MAX_FILEFMTLEN: u16 := 32
  const MAX_PROGVERLEN: u16 := 32

  /** The bytes of s from position i on begin with `pattern`. */
  predicate Matches(s: bytes, i: nat, pattern: bytes)
    decreases |pattern|
  {
    pattern == [] || (i < |s| && s[i] == pattern[0] && Matches(s, i + 1, pattern[1..]))
  }

  lemma {:induction false} MatchesIff(s: bytes, i: nat, pattern: bytes)
    requires i + |pattern| <= |s|
    ensures Matches(s, i, pattern) <==> s[i..i + |pattern|] == pattern
    decreases |pattern|
  {
    if pattern != [] {
      MatchesIff(s, i + 1, pattern[1..]);
      assert s[i..i + |pattern|] == [s[i]] + s[i + 1..i + |pattern|];
    }
  }

  /** The format version found at the beginning of a volume, 0 when it is none. */
  function DetectVersion(vol: bytes): nat {
    if |vol| < 64 then 0
    else if Matches(vol, 40, FMT_001) || Matches(vol, 40, FMT_00Y) then 1
    else if Matches(vol, 42, FMT_002) then 2
    else 0
  }

  /** The name stands at one of two places within the first 64 bytes. */
  lemma {:induction false} VersionNamed(vol: bytes)
    ensures DetectVersion(vol) in {0, 1, 2} && (|vol| < 64 ==> DetectVersion(vol) == 0)
    ensures |vol| >= 64 ==> (DetectVersion(vol) == 1 <==> vol[40..50] == FMT_001 || vol[40..50] == FMT_00Y)
    ensures |vol| >= 64 ==>
              (DetectVersion(vol) == 2 <==>
                vol[42..52] == FMT_002 && vol[40..50] != FMT_001 && vol[40..50] != FMT_00Y)
  {
    hide Matches;
    if |vol| >= 64 {
      MatchesIff(vol, 40, FMT_001);
      MatchesIff(vol, 40, FMT_00Y);
      MatchesIff(vol, 42, FMT_002);
    }
  }

  datatype VolHeaderRead = VolBad | VolOk(archid: u32, fmt: bytes, rest: bytes)

  /** `archid` is zero and `fmt` empty as long as the first volume has not been read. */
  function VolHeaderAt(s: bytes, archid: u32, fmt: bytes, volnum: nat): VolHeaderRead {
    match ReadHeader(s, archid, false)
    case HeaderOk(magic, _, d, rest) =>
      var id := GetU32(d, 0, VH_ARCHID);
      var num := GetU32(d, 0, VH_VOLNUM);
      var f := Get(d, 0, VH_FILEFORMATVER, MAX_FILEFMTLEN);
      if magic != VOLH || id.None? || (archid != 0 && id.value != archid) || num != Some(volnum)
        || !f.Got? || (fmt != [] && CStr(f.data) != fmt) || !Get(d, 0, VH_PROGVERCREAT, MAX_PROGVERLEN).Got?
      then VolBad
      else VolOk(id.value, if fmt == [] then CStr(f.data) else fmt, rest)
    case _ => VolBad
  }

  /** What went into the queue, how many errors were counted, and whether the end was reached. */
  datatype Result = Result(inputs: seq<Input>, errors: nat, complete: bool)

  const Stop := Result([], 0, false)

  function Prepend(inputs: seq<Input>, errors: nat, r: Result): Result {
    Result(inputs + r.inputs, errors + r.errors, r.complete)
  }

  /** Where the thread stands: at `s` in volume k, at the end of the archive, or stopped by an error. */
  datatype Place = At(archid: u32, fmt: bytes, k: nat, s: bytes) | EndOfArchive | Failed

  /** What one round of the loop delivers and where it leads. */
  datatype RoundResult = RoundResult(inputs: seq<Input>, errors: nat, place: Place)

  function AfterFooter(vols: seq<bytes>, p: Place, d: seq<DicoItem>): Place
    requires p.At? && p.k < |vols|
  {
    match GetU32(d, 0, VF_LASTVOL)
    case None => Failed
    case Some(last) =>
      if last == 1 then EndOfArchive
      else if p.k + 1 == |vols| || DetectVersion(vols[p.k + 1]) != 2 then Failed
      else
        match VolHeaderAt(vols[p.k + 1], p.archid, p.fmt, p.k + 1)
        case VolBad => Failed
        case VolOk(id, fmt, next) => if last == 0 then At(id, fmt, p.k + 1, next) else EndOfArchive
  }

  function AfterBlockHeader(p: Place, d: seq<DicoItem>, rest: bytes, skip: bool): RoundResult
    requires p.At?
  {
    match ReadBlock(rest, d, skip)
    case BlockFatal => RoundResult([], 0, Failed)
    case BlockSkipped(next) => RoundResult([], 0, p.(s := next))
    case BlockGot(b, sumOk, next) =>
      RoundResult([Input(BlockItem(b), if sumOk then Todo else Done)], if sumOk then 0 else 1, p.(s := next))
  }

  function Round(vols: seq<bytes>, sel: u16 -> bool, p: Place): (r: RoundResult)
    requires p.At? && p.k < |vols|
    ensures r.place.At? ==> p.k < r.place.k < |vols| || (p.k == r.place.k && |r.place.s| < |p.s|)
  {
    match ReadHeader(p.s, p.archid, true)
    case HeaderFatal => RoundResult([], 0, Failed)
    case HeaderMinor(rest) => RoundResult([], 1, p.(s := rest))
    case HeaderOk(magic, fsid, d, rest) =>
      if magic == VOLF then RoundResult([], 0, AfterFooter(vols, p.(s := rest), d))
      else if magic == BLKH then AfterBlockHeader(p, d, rest, !sel(fsid))
      else if fsid == FILESYSID_NULL || sel(fsid)
      then RoundResult([Input(HeaderItem(Header(magic, fsid, d)), Done)], 0, p.(s := rest))
      else RoundResult([], 0, p.(s := rest))
  }

  /** The loop of the reading thread. */
  function ReadLoop(vols: seq<bytes>, sel: u16 -> bool, p: Place): Result
    requires p.At? ==> p.k < |vols|
    decreases if p.At? then |vols| - p.k else 0, if p.At? then |p.s| + 1 else 0
  {
    match p
    case Failed => Stop
    case EndOfArchive => Result([], 0, true)
    case At(_, _, _, _) =>
      var r := Round(vols, sel, p);
      Prepend(r.inputs, r.errors, ReadLoop(vols, sel, r.place))
  }

  /** The whole thread: first volume header, main header, then everything else. */
  function ReadArchive(vols: seq<bytes>, sel: u16 -> bool): Result {
    if vols == [] || DetectVersion(vols[0]) != 2 then Stop
    else
      match VolHeaderAt(vols[0], 0, [], 0)
      case VolBad => Stop
      case VolOk(archid, fmt, rest) =>
        match ReadHeader(rest, archid, false)
        case HeaderOk(magic, fsid, d, next) =>
          (match GetU32(d, 0, MH_ARCHIVEID)
           case None => Stop
           case Some(id) =>
             Prepend([Input(HeaderItem(Header(magic, fsid, d)), Done)], 0, ReadLoop(vols, sel, At(id, fmt, 0, next))))
        case _ => Stop
  }

  lemma {:induction false} PrependTwice(a: seq<Input>, e: nat, b: seq<Input>, f: nat, r: Result)
    ensures Prepend(a, e, Prepend(b, f, r)) == Prepend(a + b, e + f, r)
  {
    assert a + (b + r.inputs) == (a + b) + r.inputs;
  }

  lemma {:induction false} ResyncStep(s: bytes)
    requires |s| >= 4
    ensures Resync(s) == if MagicAt(s).Some? then s else Resync(s[1..])
  {}

  lemma {:induction false} SameMagic(vol: bytes, at: nat)
    requires at + 4 <= |vol|
    ensures MagicAt(vol[at..at + 4]) == MagicAt(vol[at..])
  {}

  lemma {:induction false} ShortResync(s: bytes)
    ensures |s| < 4 ==> Resync(s) == []
    ensures |s| == 4 && MagicAt(s).None? ==> Resync(s) == []
  {}

  /** The item at the beginning of s, if all of it is there. */
  function TakeItem(s: bytes): (it: Option<DicoItem>)
    ensures it.Some? ==> 6 + |it.value.data| <= |s| && |it.value.data| < 0x1_0000
  {
    if |s| < 6 || |s| < 6 + De16(s[4..6]) then None
    else Some(DicoItem(s[0], s[1], De16(s[2..4]), s[6..6 + De16(s[4..6])]))
  }

  lemma {:induction false} ParseStep(s: bytes, count: nat, acc: seq<DicoItem>)
    ensures ParseItems(s, count, acc) ==
            if count == 0 then Parsed(acc)
            else
              match TakeItem(s)
              case None => Overrun
              case Some(it) =>
                if IndexOf(acc, it.section, it.key) < |acc| then Duplicate
                else ParseItems(s[6 + |it.data|..], count - 1, acc + [it])
  {}

  lemma {:induction false} ParseNone(buffer: bytes)
    ensures ParseBody(buffer) == if |buffer| < 2 then Overrun else ParseItems(buffer[2..], De16(buffer[..2]), [])
  {}

  class ArchReader {
    var vol: bytes // the contents of the current volume
    var pos: nat // the file position in it
    var archid: u32
    var curvol: nat
    var filefmt: bytes

    constructor ()
      ensures vol == [] && pos == 0 && archid == 0 && curvol == 0 && filefmt == []
    {
      vol, pos, archid, curvol, filefmt := [], 0, 0, 0, [];
    }

    ghost function Rest(): bytes
      reads this
    {
      if pos <= |vol| then vol[pos..] else []
    }

    /** The format version of the volume, zero when it is no volume. It is read from the first 64 bytes,
        which are then read again. */
    method Open(contents: bytes) returns (filefmtver: nat)
      modifies this`vol, this`pos
      ensures filefmtver == DetectVersion(contents)
      ensures filefmtver != 0 ==> Rest() == contents
    {
      vol, pos := contents, 0;
      var ok, volhead := ReadData(64);
      if !ok {
        return 0;
      }
      pos := 0;
      MatchesIff(contents, 40, FMT_001);
      MatchesIff(contents, 40, FMT_00Y);
      MatchesIff(contents, 42, FMT_002);
      assert volhead[40..50] == contents[40..50] && volhead[42..52] == contents[42..52];
      if volhead[40..50] == FMT_001 || volhead[40..50] == FMT_00Y {
        filefmtver := 1;
      } else if volhead[42..52] == FMT_002 {
        filefmtver := 2;
      } else {
        filefmtver := 0;
      }
    }

    /** Reads exactly `size` bytes or fails. */
    method ReadData(size: nat) returns (ok: bool, data: bytes)
      modifies this`pos
      ensures ok <==> |old(Rest())| >= size
      ensures ok ==> data == old(Rest())[..size] && Rest() == old(Rest())[size..]
      ensures ok ==> pos == old(pos) + size
    {
      if pos + size <= |vol| {
        data, pos, ok := vol[pos..pos + size], pos + size, true;
      } else if size == 0 {
        data, ok := [], true;
      } else {
        data, pos, ok := [], if pos < |vol| then |vol| else pos, false;
      }
    }

    /** Length, data, checksum, then the items one after the other. */
    method ReadDico() returns (r: DicoRead)
      modifies this`pos
      ensures r == Format.ReadDico(old(Rest()))
      ensures !r.DicoFatal? ==> Rest() == r.rest
    {
      var ok, temp := ReadData(4);
      if !ok { return DicoFatal; }
      var headerlen := De32(temp);
      var buffer;
      ok, buffer := ReadData(headerlen);
      if !ok { return DicoFatal; }
      ok, temp := ReadData(4);
      if !ok { return DicoFatal; }
      var newsum := Fletcher.ChecksumOf(buffer);
      if newsum != De32(temp) {
        return DicoMinor(Remaining());
      }
      var p := ParseBuffer(buffer);
      if p.Parsed? {
        r := DicoOk(p.dico, Remaining());
      } else {
        r := DicoFatal;
      }
    }

    function Remaining(): bytes
      reads this
      ensures Remaining() == Rest()
    {
      if pos <= |vol| then vol[pos..] else []
    }

    /** One item at the cursor. */
    static method ParseOne(buffer: bytes, bufpos: nat) returns (it: Option<DicoItem>, next: nat)
      requires bufpos <= |buffer|
      ensures it == TakeItem(buffer[bufpos..])
      ensures it.Some? ==> next == bufpos + 6 + |it.value.data| <= |buffer|
    {
      next := bufpos + 6;
      if next > |buffer| {
        return None, next;
      }
      var typ, section := buffer[bufpos], buffer[bufpos + 1];
      var key, size := De16(buffer[bufpos + 2..bufpos + 4]), De16(buffer[bufpos + 4..next]);
      ghost var s := buffer[bufpos..];
      assert s[2..4] == buffer[bufpos + 2..bufpos + 4] && s[4..6] == buffer[bufpos + 4..next];
      if next + size > |buffer| {
        return None, next;
      }
      it := Some(DicoItem(typ, section, key, buffer[next..next + size]));
      assert s[6..6 + size] == buffer[next..next + size];
      next := next + size;
    }

    /** The item at the cursor goes into the dictionary. */
    static method ParseNext(d: Dico, buffer: bytes, bufpos: nat) returns (failure: Option<ParsedDico>, next: nat)
      requires d.Valid() && bufpos <= |buffer|
      modifies d, d.repr
      ensures d.Valid() && fresh(d.repr - old(d.repr))
      ensures match TakeItem(buffer[bufpos..])
              case None => failure == Some(Overrun)
              case Some(it) =>
                if IndexOf(old(d.contents), it.section, it.key) < |old(d.contents)| then failure == Some(Duplicate)
                else
                  && failure == None && d.contents == old(d.contents) + [it]
                  && next <= |buffer| && buffer[next..] == buffer[bufpos..][6 + |it.data|..]
    {
      hide De16, IndexOf, TakeItem;
      var it;
      it, next := ParseOne(buffer, bufpos);
      if it.None? {
        return Some(Overrun), next;
      }
      assert buffer[bufpos..][6 + |it.value.data|..] == buffer[next..];
      var ok := d.AddGeneric(it.value.section, it.value.key, it.value.data, it.value.typ);
      failure := if ok then None else Some(Duplicate);
    }

    /** The cursor loop over the items; a repeated key is refused by the dictionary. */
    static method ParseBuffer(buffer: bytes) returns (p: ParsedDico)
      ensures p == ParseBody(buffer)
    {
      hide De16, IndexOf, ParseItems, ParseBody, TakeItem, Dico.Valid;
      ParseNone(buffer);
      if |buffer| < 2 {
        return Overrun;
      }
      var d := new Dico();
      var count := De16(buffer[..2]);
      var bufpos: nat := 2;
      ghost var rest := buffer[2..];
      for i := 0 to count
        invariant fresh(d) && d.Valid() && fresh(d.repr)
        invariant 0 <= bufpos <= |buffer| && rest == buffer[bufpos..]
        invariant ParseBody(buffer) == ParseItems(rest, count - i, d.contents)
      {
        ParseStep(rest, count - i, d.contents);
        var failure, next := ParseNext(d, buffer, bufpos);
        if failure.Some? {
          return failure.value;
        }
        bufpos, rest := next, buffer[next..];
      }
      ParseStep(rest, 0, d.contents);
      var items := d.Snapshot();
      p := Parsed(items);
    }

    /** Leaves the position behind the next magic. */
    method FindMagic(allowSeek: bool) returns (magic: Option<Magic>)
      modifies this`pos
      ensures magic.Some? <==> (MagicAt(old(Rest())).Some? || allowSeek) && Resync(old(Rest())) != []
      ensures magic.Some? ==> magic == MagicAt(Resync(old(Rest()))) && Rest() == Resync(old(Rest()))[4..]
    {
      hide MagicAt, Resync;
      var curpos := pos;
      ShortResync(Rest());
      var ok, buf := ReadData(4);
      if ok {
        assert buf == vol[curpos..curpos + 4];
        SameMagic(vol, curpos);
      }
      if !ok || (MagicAt(buf).None? && !allowSeek) { return None; }
      ghost var s := old(Rest());
      ghost var at := curpos; // where the last four bytes were read
      while MagicAt(buf).None?
        invariant 0 <= at && at + 4 <= |vol| && buf == vol[at..at + 4] && pos == at + 4
        invariant curpos == at || curpos == at + 1
        invariant Resync(s) == Resync(vol[at..])
        decreases |vol| - curpos
      {
        if curpos == at + 1 {
          assert vol[at..][1..] == vol[curpos..];
          SameMagic(vol, at);
          ResyncStep(vol[at..]);
        }
        at := curpos;
        pos := curpos;
        curpos := curpos + 1;
        ok, buf := ReadData(4);
        if !ok {
          ShortResync(vol[at..]);
          return None;
        }
      }
      SameMagic(vol, at);
      ResyncStep(vol[at..]);
      assert vol[at..][4..] == vol[at + 4..];
      magic := MagicAt(buf);
    }

    /** Searches for the next magic, then checks the archive id and reads the dictionary. */
    method ReadHeader(allowSeek: bool) returns (r: HeaderRead)
      modifies this`pos
      ensures r == Format.ReadHeader(old(Rest()), archid, allowSeek)
      ensures !r.HeaderFatal? ==> Rest() == r.rest
    {
      var magic := FindMagic(allowSeek);
      if magic.None? { return HeaderFatal; }
      var ok, temp := ReadData(4);
      if !ok { return HeaderFatal; }
      if archid != 0 && De32(temp) != archid {
        return HeaderMinor(Remaining());
      }
      ok, temp := ReadData(2);
      if !ok { return HeaderFatal; }
      var d := ReadDico();
      match d {
        case DicoFatal => r := HeaderFatal;
        case DicoMinor(rest) => r := HeaderMinor(rest);
        case DicoOk(items, rest) => r := HeaderOk(magic.value, De16(temp), items, rest);
      }
    }

    method ReadVolHeader() returns (ok: bool)
      modifies this`pos, this`archid, this`filefmt
      ensures match VolHeaderAt(old(Rest()), old(archid), old(filefmt), curvol)
              case VolBad => !ok
              case VolOk(id, f, rest) => ok && archid == id && filefmt == f && Rest() == rest
    {
      hide Format.ReadHeader, CStr, Get, GetU32;
      var h := ReadHeader(false);
      if !h.HeaderOk? || h.magic != VOLH { return false; }
      var readid := GetU32(h.dico, 0, VH_ARCHID);
      if readid.None? { return false; }
      if archid == 0 {
        archid := readid.value;
      } else if readid.value != archid {
        return false;
      }
      if GetU32(h.dico, 0, VH_VOLNUM) != Some(curvol) { return false; }
      var f := Get(h.dico, 0, VH_FILEFORMATVER, MAX_FILEFMTLEN);
      if !f.Got? { return false; }
      if filefmt == [] {
        filefmt := CStr(f.data);
      } else if CStr(f.data) != filefmt {
        return false;
      }
      ok := Get(h.dico, 0, VH_PROGVERCREAT, MAX_PROGVERLEN).Got?;
    }

    /** The data of a block; corrupt data are replaced by zeros and the file position goes back to
        their beginning. */
    method ReadBlock(d: seq<DicoItem>, skip: bool) returns (r: BlockRead)
      modifies this`pos
      ensures r == Format.ReadBlock(old(Rest()), d, skip)
      ensures !r.BlockFatal? ==> Rest() == r.rest
    {
      hide GetU16, GetU32, GetU64, Fletcher.Checksum;
      var offset := GetU64(d, 0, BH_BLOCKOFFSET);
      var realSize := GetU32(d, 0, BH_REALSIZE);
      var compAlgo := GetU16(d, 0, BH_COMPRESSALGO);
      var cryptAlgo := GetU16(d, 0, BH_ENCRYPTALGO);
      var arSize := GetU32(d, 0, BH_ARSIZE);
      var compSize := GetU32(d, 0, BH_COMPSIZE);
      var arcSum := GetU32(d, 0, BH_ARCSUM);
      if offset.None? || realSize.None? || realSize.value > MAX_BLKSIZE || compAlgo.None? || cryptAlgo.None?
        || arSize.None? || compSize.None? || arcSum.None?
      {
        return BlockFatal;
      }
      if skip {
        pos := pos + arSize.value;
        return BlockSkipped(Remaining());
      }
      var ok, buffer := ReadData(arSize.value);
      if !ok { return BlockFatal; }
      var sum := Fletcher.ChecksumOf(buffer);
      var sumOk := sum == arcSum.value;
      if !sumOk {
        pos := pos - arSize.value;
        buffer := Zeros(realSize.value);
      }
      r := BlockGot(Block(buffer, realSize.value, offset.value, arcSum.value, arSize.value, compAlgo.value,
                          compSize.value, cryptAlgo.value, 0), sumOk, Remaining());
    }

    /** After the footer of a volume that is not the last one. */
    method NextVolume(vols: seq<bytes>) returns (ok: bool)
      requires curvol < |vols|
      modifies this
      ensures curvol < |vols| && curvol >= old(curvol) && (ok ==> curvol == old(curvol) + 1)
      ensures
        if old(curvol) + 1 == |vols| || DetectVersion(vols[old(curvol) + 1]) != 2 then !ok
        else
          match VolHeaderAt(vols[old(curvol) + 1], old(archid), old(filefmt), old(curvol) + 1)
          case VolBad => !ok
          case VolOk(id, f, rest) => ok && archid == id && filefmt == f && Rest() == rest
    {
      if curvol + 1 == |vols| {
        return false;
      }
      curvol := curvol + 1;
      var filefmtver := Open(vols[curvol]);
      ok := filefmtver == 2;
      if ok {
        ok := ReadVolHeader();
      }
    }

    ghost function Here(): Place
      reads this
    {
      At(archid, filefmt, curvol, Rest())
    }

    /** One round of the loop; the status says whether there is another. */
    method DoRound(vols: seq<bytes>, sel: u16 -> bool) returns (inputs: seq<Input>, errors: nat, status: LoopStatus)
      requires curvol < |vols|
      modifies this
      ensures curvol < |vols|
      ensures RoundResult(inputs, errors, PlaceOf(status, Here())) == Round(vols, sel, old(Here()))
    {
      hide Format.ReadHeader, AfterFooter, Format.ReadBlock;
      inputs, errors, status := [], 0, Running;
      var h := ReadHeader(true);
      match h {
        case HeaderMinor(_) => errors := 1;
        case HeaderFatal => status := Broken;
        case HeaderOk(magic, fsid, d, _) =>
          if magic == VOLF {
            status := DoFooter(vols, d);
          } else if magic == BLKH {
            var b := ReadBlock(d, !sel(fsid));
            match b {
              case BlockFatal => status := Broken;
              case BlockSkipped(_) =>
              case BlockGot(block, sumOk, _) =>
                inputs := [Input(BlockItem(block), if sumOk then Todo else Done)];
                errors := if sumOk then 0 else 1;
            }
          } else if fsid == FILESYSID_NULL || sel(fsid) {
            inputs := [Input(HeaderItem(Header(magic, fsid, d)), Done)];
          }
      }
    }

    method DoFooter(vols: seq<bytes>, d: seq<DicoItem>) returns (status: LoopStatus)
      requires curvol < |vols|
      modifies this
      ensures curvol < |vols|
      ensures PlaceOf(status, Here()) == AfterFooter(vols, old(Here()), d)
    {
      hide VolHeaderAt, DetectVersion, GetU32;
      var last := GetU32(d, 0, VF_LASTVOL);
      if last.None? {
        return Broken;
      }
      if last.value == 1 {
        return Ended;
      }
      var ok := NextVolume(vols);
      status := if !ok then Broken else if last.value == 0 then Running else Ended;
    }

    /** The reading thread. Each volume that exists is an element of `vols`. */
    static method Run(vols: seq<bytes>, sel: u16 -> bool) returns (r: Result)
      ensures r == ReadArchive(vols, sel)
    {
      hide Format.ReadHeader, VolHeaderAt, DetectVersion, GetU32, ReadLoop;
      if vols == [] { return Stop; }
      var ai := new ArchReader();
      var filefmtver := ai.Open(vols[0]);
      if filefmtver != 2 { return Stop; }
      var ok := ai.ReadVolHeader();
      if !ok { return Stop; }
      var h := ai.ReadHeader(false);
      if !h.HeaderOk? { return Stop; }
      var id := GetU32(h.dico, 0, MH_ARCHIVEID);
      if id.None? { return Stop; }
      ai.archid := id.value;
      r := ai.Loop(vols, sel);
      r := Prepend([Input(HeaderItem(Header(h.magic, h.fsid, h.dico)), Done)], 0, r);
    }

    method Loop(vols: seq<bytes>, sel: u16 -> bool) returns (r: Result)
      requires curvol < |vols|
      modifies this
      ensures r == ReadLoop(vols, sel, old(Here()))
    {
      hide Round;
      ghost var start := Here();
      var inputs, errors, status := [], 0, Running;
      while status == Running
        invariant curvol < |vols|
        invariant ReadLoop(vols, sel, start) == Prepend(inputs, errors, ReadLoop(vols, sel, PlaceOf(status, Here())))
        decreases status == Running, |vols| - curvol, |Rest()|
      {
        var more, newErrors;
        ghost var here := Here();
        more, newErrors, status := DoRound(vols, sel);
        PrependTwice(inputs, errors, more, newErrors, ReadLoop(vols, sel, PlaceOf(status, Here())));
        inputs, errors := inputs + more, errors + newErrors;
      }
      r := Result(inputs, errors, status == Ended);
    }
  }

  datatype LoopStatus = Running | Ended | Broken

  function PlaceOf(status: LoopStatus, here: Place): Place {
    match status
    case Running => here
    case Ended => EndOfArchive
    case Broken => Failed
  }
}
