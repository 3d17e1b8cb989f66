/** What the (de)compression threads do to one block (src/thread_comp.c). The compression libraries
    and the cipher are parameters. */
module BlockTransform {
  import opened Bytes
  import opened ArchiveItems
  import Fletcher
  import Format

  const COMPRESS_NONE: u16 := 1
  const COMPRESS_GZIP: u16 := 3
  const COMPRESS_ZSTD: u16 := 7
  const ENCRYPT_NONE: u16 := 1
  const ENCRYPT_BLOWFISH: u16 := 2

  datatype CompResult = CompOk(data: bytes) | CompNoMem | CompFailed

  /** The libraries of a build: which algorithms it has, and what they do. */
  datatype Codec = Codec(
    zstd: bool,
    supported: u16 -> bool,
    compress: (u16, int, bytes) -> CompResult,
    decompress: (u16, bytes, nat) -> Option<bytes>,
    encrypt: bytes -> Option<bytes>,
    decrypt: bytes -> Option<bytes>)

  datatype Options = Options(algo: u16, level: int, encrypting: bool)

  /** Decompression undoes compression, and the cipher is a pair of length-preserving inverses. */
  ghost predicate CodecOk(c: Codec) {
    && (forall a: u16, l: int, d: bytes, z: bytes :: c.compress(a, l, d) == CompOk(z) ==>
          z != [] && c.decompress(a, z, |d|) == Some(d))
    && (forall d: bytes, e: bytes :: c.encrypt(d) == Some(e) ==> |e| == |d| && c.decrypt(e) == Some(d))
    && !c.supported(COMPRESS_NONE)
  }

  function DefaultAlgo(c: Codec): u16 { if c.zstd then COMPRESS_ZSTD else COMPRESS_GZIP }
  function DefaultLevel(c: Codec): int { if c.zstd then 8 else 6 }

  /** After running out of memory with anything stronger, the default algorithm gets its chance. */
  predicate FallsBack(c: Codec, algo: u16, level: int) {
    (algo == COMPRESS_ZSTD && level > DefaultLevel(c)) || algo != DefaultAlgo(c)
  }

  datatype Attempt = Unsupported | Attempted(algo: u16, result: CompResult)

  function TryOnce(c: Codec, algo: u16, level: int, data: bytes): Attempt {
    if c.supported(algo) then Attempted(algo, c.compress(algo, level, data)) else Unsupported
  }

  function TryTwice(c: Codec, o: Options, data: bytes): Attempt {
    var first := TryOnce(c, o.algo, o.level, data);
    if first == Attempted(o.algo, CompNoMem) then
      if FallsBack(c, o.algo, o.level) then TryOnce(c, DefaultAlgo(c), DefaultLevel(c), data)
      else TryOnce(c, o.algo, o.level, data)
    else first
  }

  /** Compressed data replace the original only when they are smaller. */
  function Packed(b: Block, a: Attempt): Block
    requires a.Attempted?
  {
    if a.result.CompOk? && |a.result.data| < b.realSize
    then b.(data := a.result.data, compSize := |a.result.data|, arSize := |a.result.data|, compAlgo := a.algo)
    else b.(compSize := b.realSize, arSize := b.realSize, compAlgo := COMPRESS_NONE)
  }

  function Compressed(c: Codec, o: Options, b: Block): Option<Block> {
    var a := TryTwice(c, o, b.data);
    if a.Unsupported? then None
    else
      var p := Packed(b, a);
      if !o.encrypting then Some(p.(cryptAlgo := ENCRYPT_NONE, arcSum := Fletcher.Checksum(p.data)))
      else
        match c.encrypt(p.data)
        case None => None
        case Some(e) =>
          if |e| >= 0x1_0000_0000 then None
          else Some(p.(data := e, arSize := |e|, cryptAlgo := ENCRYPT_BLOWFISH, arcSum := Fletcher.Checksum(e)))
  }

  /** The clear data behind the cipher. */
  function Deciphered(c: Codec, o: Options, b: Block): Option<bytes> {
    if b.cryptAlgo != ENCRYPT_NONE && !o.encrypting then None
    else if b.cryptAlgo != ENCRYPT_BLOWFISH then Some(b.data)
    else
      match c.decrypt(b.data)
      case None => None
      case Some(clear) => if |clear| == b.compSize then Some(clear) else None
  }

  /** A block whose checksum is wrong is left as it is; data that cannot be decompressed become zeros. */
  function Decompressed(c: Codec, o: Options, b: Block): Option<Block> {
    if Fletcher.Checksum(b.data) != b.arcSum then Some(b)
    else
      match Deciphered(c, o, b)
      case None => None
      case Some(clear) =>
        if b.compAlgo == COMPRESS_NONE then Some(b.(data := Fit(clear, b.realSize)))
        else if !c.supported(b.compAlgo) then None
        else
          match c.decompress(b.compAlgo, clear, b.realSize)
          case Some(d) => Some(b.(data := d))
          case None => Some(b.(data := Zeros(b.realSize)))
  }

  /** Data in the clear, as the main thread queues them. */
  predicate Clear(b: Block) {
    |b.data| == b.realSize
  }

  /** Decompression gives back the data, for any compressor that may fail, run out of memory or expand. */
  lemma {:induction false} TransformInverse(c: Codec, o: Options, r: Options, b: Block)
    requires CodecOk(c) && Clear(b) && Compressed(c, o, b).Some? && (o.encrypting ==> r.encrypting)
    ensures var p := Compressed(c, o, b).value;
            Decompressed(c, r, p) == Some(p.(data := b.data))
  {
    var a := TryTwice(c, o, b.data);
    var q := Packed(b, a);
    assert b.data[..b.realSize] == b.data;
    if a.result.CompOk? {
      assert c.decompress(a.algo, a.result.data, |b.data|) == Some(b.data);
    }
  }

  /** The data that go to the cipher, or to the archive, with their algorithm: the compressed form of the first
      attempt if that is smaller; if memory ran out, that of a second attempt, with the default algorithm unless
      it was just that; otherwise the data themselves. */
  predicate StoredForm(c: Codec, o: Options, data: bytes, z: bytes, algo: u16) {
    var first := c.compress(o.algo, o.level, data);
    var best, level := if c.zstd then COMPRESS_ZSTD else COMPRESS_GZIP, if c.zstd then 8 else 6;
    var again := o.algo != best || (o.algo == COMPRESS_ZSTD && o.level > level);
    var second := c.compress(best, level, data);
    if first.CompOk? && |first.data| < |data| then z == first.data && algo == o.algo
    else if first.CompNoMem? && again && second.CompOk? && |second.data| < |data| then z == second.data && algo == best
    else z == data && algo == COMPRESS_NONE
  }

  /** The algorithm of the second attempt. */
  function SecondAlgo(c: Codec, o: Options): u16 {
    var best, level := if c.zstd then COMPRESS_ZSTD else COMPRESS_GZIP, if c.zstd then 8 else 6;
    if o.algo != best || (o.algo == COMPRESS_ZSTD && o.level > level) then best else o.algo
  }

  /** What compression does to a block: it fails if an algorithm that it needs is missing, or the cipher fails;
      otherwise the stored form is encrypted if and only if that is asked for, and marked so. */
  lemma {:induction false} WhatIsStored(c: Codec, o: Options, b: Block) returns (z: bytes, algo: u16)
    requires Clear(b)
    ensures StoredForm(c, o, b.data, z, algo)
    ensures var r := Compressed(c, o, b);
            && (r.Some? ==>
                  var p := r.value;
                  && c.supported(o.algo)
                  && p.realSize == b.realSize && p.offset == b.offset && p.fsid == b.fsid
                  && p.compAlgo == algo && p.compSize == |z|
                  && p.arSize == |p.data| && p.arcSum == Fletcher.Checksum(p.data)
                  && (o.encrypting ==> p.cryptAlgo == ENCRYPT_BLOWFISH && c.encrypt(z) == Some(p.data))
                  && (!o.encrypting ==> p.cryptAlgo == ENCRYPT_NONE && p.data == z))
            && (r == None <==>
                  || !c.supported(o.algo)
                  || (c.compress(o.algo, o.level, b.data).CompNoMem? && !c.supported(SecondAlgo(c, o)))
                  || (o.encrypting && (c.encrypt(z) == None || |c.encrypt(z).value| >= 0x1_0000_0000)))
  {
    hide Fletcher.Checksum;
    var a := TryTwice(c, o, b.data);
    if a.Attempted? {
      z := if a.result.CompOk? && |a.result.data| < |b.data| then a.result.data else b.data;
      algo := Packed(b, a).compAlgo;
    } else {
      z, algo := AnyForm(c, o, b.data);
    }
  }

  lemma {:induction false} AnyForm(c: Codec, o: Options, data: bytes) returns (z: bytes, algo: u16)
    ensures StoredForm(c, o, data, z, algo)
  {
    var first := c.compress(o.algo, o.level, data);
    var best, level := if c.zstd then COMPRESS_ZSTD else COMPRESS_GZIP, if c.zstd then 8 else 6;
    var again := o.algo != best || (o.algo == COMPRESS_ZSTD && o.level > level);
    var second := c.compress(best, level, data);
    if first.CompOk? && |first.data| < |data| {
      z, algo := first.data, o.algo;
    } else if first.CompNoMem? && again && second.CompOk? && |second.data| < |data| {
      z, algo := second.data, best;
    } else {
      z, algo := data, COMPRESS_NONE;
    }
  }

  /** With a password nothing is stored in the clear, and nobody reads it without one. */
  lemma {:induction false} EncryptedIfAsked(c: Codec, o: Options, r: Options, b: Block)
    requires CodecOk(c) && Clear(b) && o.encrypting && !r.encrypting && Compressed(c, o, b).Some?
    ensures var p := Compressed(c, o, b).value;
            && p.cryptAlgo == ENCRYPT_BLOWFISH && Decompressed(c, r, p) == None
            && exists z: bytes, algo: u16 :: StoredForm(c, o, b.data, z, algo) && c.encrypt(z) == Some(p.data)
  {
    hide Fletcher.Checksum, StoredForm;
    var z, algo := WhatIsStored(c, o, b);
  }

  /** What becomes of a block that is not as it was written, or that cannot be read: it is left alone if its
      checksum is wrong, it stops the thread without a password, with a wrong one, or without the algorithm,
      and its data become zeros if the algorithm gives up. */
  lemma {:induction false} WhatIsDecompressed(c: Codec, o: Options, b: Block)
    ensures var sumOk := Fletcher.Checksum(b.data) == b.arcSum;
            var locked := b.cryptAlgo != ENCRYPT_NONE && !o.encrypting;
            var cipher := b.cryptAlgo == ENCRYPT_BLOWFISH;
            && (!sumOk ==> Decompressed(c, o, b) == Some(b))
            && (sumOk && locked ==> Decompressed(c, o, b) == None)
            && (sumOk && !locked && cipher && (c.decrypt(b.data) == None || |c.decrypt(b.data).value| != b.compSize) ==>
                  Decompressed(c, o, b) == None)
            && (sumOk && !locked && !cipher && b.compAlgo == COMPRESS_NONE && |b.data| == b.realSize ==>
                  Decompressed(c, o, b) == Some(b))
            && (sumOk && !locked && !cipher && b.compAlgo != COMPRESS_NONE && c.supported(b.compAlgo) &&
                c.decompress(b.compAlgo, b.data, b.realSize) == None ==>
                  Decompressed(c, o, b).Some? && |Decompressed(c, o, b).value.data| == b.realSize &&
                  forall i :: 0 <= i < b.realSize ==> Decompressed(c, o, b).value.data[i] == 0)
  {
    hide Fletcher.Checksum;
    assert b.data[..|b.data|] == b.data;
  }

  /** A block that is as it was written cannot be decompressed by a build without its algorithm. */
  lemma {:induction false} UnknownAlgorithm(c: Codec, o: Options, b: Block)
    requires Fletcher.Checksum(b.data) == b.arcSum && b.compAlgo != COMPRESS_NONE && !c.supported(b.compAlgo)
    ensures Decompressed(c, o, b) == None
  {}

  /** What is stored is never larger than the original, its sizes and its checksum are right, and only
      the stored form differs from the original. */
  lemma {:induction false} CompressedOk(c: Codec, o: Options, b: Block)
    requires CodecOk(c) && Clear(b) && Compressed(c, o, b).Some?
    ensures var p := Compressed(c, o, b).value;
            && p.compSize <= b.realSize && p.arSize <= b.realSize && |p.data| == p.arSize
            && p.realSize == b.realSize && p.offset == b.offset && p.fsid == b.fsid
            && (0 < b.realSize <= MAX_BLKSIZE ==> Format.BlockOk(p))
  {
    hide Fletcher.Checksum;
    var a := TryTwice(c, o, b.data);
    if a.result.CompOk? {
      var level := if a == TryOnce(c, o.algo, o.level, b.data) then o.level else DefaultLevel(c);
      assert c.compress(a.algo, level, b.data) == a.result;
    }
  }

  class BlockInfo {
    var blkdata: bytes
    var blkrealsize: u32
    var blkoffset: u64
    var blkarcsum: u32
    var blkarsize: u32
    var blkcompalgo: u16
    var blkcompsize: u32
    var blkcryptalgo: u16
    var blkfsid: u16

    function Value(): Block
      reads this
    {
      Block(blkdata, blkrealsize, blkoffset, blkarcsum, blkarsize, blkcompalgo, blkcompsize, blkcryptalgo, blkfsid)
    }

    constructor (b: Block)
      ensures Value() == b
    {
      blkdata, blkrealsize, blkoffset, blkarcsum, blkarsize := b.data, b.realSize, b.offset, b.arcSum, b.arSize;
      blkcompalgo, blkcompsize, blkcryptalgo, blkfsid := b.compAlgo, b.compSize, b.cryptAlgo, b.fsid;
    }

    /** At most two attempts to compress. */
    method TryCompress(c: Codec, o: Options) returns (a: Attempt, attempts: nat)
      modifies this`blkcompalgo
      ensures a == TryTwice(c, o, blkdata) && attempts <= 2
      ensures a.Attempted? ==> blkcompalgo == a.algo
    {
      var compalgo, complevel := o.algo, o.level;
      attempts := 0;
      while true
        invariant attempts <= 1
        invariant attempts == 0 ==> compalgo == o.algo && complevel == o.level
        invariant attempts == 1 ==> TryTwice(c, o, blkdata) == TryOnce(c, compalgo, complevel, blkdata)
        decreases 2 - attempts
      {
        if !c.supported(compalgo) {
          return Unsupported, attempts;
        }
        var res := c.compress(compalgo, complevel, blkdata);
        blkcompalgo := compalgo;
        attempts := attempts + 1;
        if res != CompNoMem || attempts == 2 {
          return Attempted(compalgo, res), attempts;
        }
        if FallsBack(c, compalgo, complevel) {
          compalgo, complevel := DefaultAlgo(c), DefaultLevel(c);
        }
      }
    }

    /** A failure to compress is not an error: the block is then stored as it is. */
    method Compress(c: Codec, o: Options) returns (ok: bool, attempts: nat)
      requires Clear(Value())
      modifies this
      ensures ok <==> Compressed(c, o, old(Value())).Some?
      ensures ok ==> Value() == Compressed(c, o, old(Value())).value
      ensures attempts <= 2
    {
      hide TryTwice, Fletcher.Checksum;
      var a;
      a, attempts := TryCompress(c, o);
      if a.Unsupported? {
        return false, attempts;
      }
      if a.result.CompOk? && |a.result.data| < blkrealsize {
        blkdata, blkcompsize, blkarsize := a.result.data, |a.result.data|, |a.result.data|;
      } else {
        blkcompsize, blkarsize, blkcompalgo := blkrealsize, blkrealsize, COMPRESS_NONE;
      }
      if o.encrypting {
        var e := c.encrypt(blkdata);
        if e.None? || |e.value| >= 0x1_0000_0000 {
          return false, attempts;
        }
        blkdata, blkarsize, blkcryptalgo := e.value, |e.value|, ENCRYPT_BLOWFISH;
      } else {
        blkcryptalgo := ENCRYPT_NONE;
      }
      blkarcsum := Fletcher.ChecksumOf(blkdata);
      ok := true;
    }

    method Decompress(c: Codec, o: Options) returns (ok: bool)
      requires |blkdata| == blkarsize
      modifies this`blkdata
      ensures ok <==> Decompressed(c, o, old(Value())).Some?
      ensures ok ==> Value() == Decompressed(c, o, old(Value())).value
    {
      var sum := Fletcher.ChecksumOf(blkdata);
      if sum != blkarcsum {
        return true;
      }
      if blkcryptalgo != ENCRYPT_NONE && !o.encrypting {
        return false;
      }
      var clear := blkdata;
      if blkcryptalgo == ENCRYPT_BLOWFISH {
        var d := c.decrypt(blkdata);
        if d.None? || |d.value| != blkcompsize {
          return false;
        }
        clear := d.value;
      }
      if blkcompalgo == COMPRESS_NONE {
        blkdata := Fit(clear, blkrealsize);
      } else if !c.supported(blkcompalgo) {
        return false;
      } else {
        var d := c.decompress(blkcompalgo, clear, blkrealsize);
        blkdata := if d.Some? then d.value else Zeros(blkrealsize);
      }
      ok := true;
    }
  }
}
