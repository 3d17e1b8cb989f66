/** Writing the contents of a restored file, densely or with holes for blocks of zeros (src/datafile.c). */
module DataFile {
  import opened Bytes

  /** What is on disk and where the next write goes. */
  datatype File = File(contents: bytes, pos: nat)

  /** write(2): a gap between the end of the file and the position is filled with zeros. */
  function Written(f: File, data: bytes): File {
    if data == [] then f
    else
      var padded := if |f.contents| < f.pos then f.contents + Zeros(f.pos - |f.contents|) else f.contents;
      var behind := if |padded| > f.pos + |data| then padded[f.pos + |data|..] else [];
      File(padded[..f.pos] + data + behind, f.pos + |data|)
  }

  /** ftruncate(2) */
  function Truncated(contents: bytes, len: nat): bytes {
    Fit(contents, len)
  }

  predicate AllZero(data: bytes) {
    forall i :: 0 <= i < |data| ==> data[i] == 0
  }

  class DataFile {
    var file: File // the open file
    var simul: bool
    var open: bool
    var sparse: bool
    var fed: bytes // what the digest has been fed: everything written since the file was opened

    constructor ()
      ensures !open
    {
      file, simul, open, sparse, fed := File([], 0), false, false, false, [];
    }

    /** What is on disk differs from everything written so far at most by a missing tail of zeros. */
    ghost predicate Valid()
      reads this
    {
      open && !simul ==>
        && file.pos == |fed| && |file.contents| <= |fed|
        && file.contents + Zeros(|fed| - |file.contents|) == fed
        && (!sparse ==> file.contents == fed)
    }

    /** The file is created or emptied; with `simul` nothing is touched. */
    method OpenWrite(simul: bool, sparse: bool) returns (ok: bool)
      modifies this
      ensures ok <==> !old(open)
      ensures ok ==> Valid() && open && this.simul == simul && this.sparse == sparse && fed == []
    {
      if open {
        return false;
      }
      if !simul {
        file := File([], 0);
      }
      this.simul, this.sparse, open := simul, sparse, true;
      fed := [];
      ok := true;
    }

    method IsBlockZero(data: bytes) returns (zero: bool)
      ensures zero <==> AllZero(data)
    {
      zero := true;
      var pos := 0;
      while pos < |data| && zero
        invariant 0 <= pos <= |data|
        invariant zero <==> AllZero(data[..pos])
      {
        assert data[..pos + 1] == data[..pos] + [data[pos]];
        if data[pos] != 0 {
          assert data[..pos + 1][pos] != 0;
          zero := false;
        }
        pos := pos + 1;
      }
      if zero {
        assert data[..pos] == data;
      } else {
        assert exists i :: 0 <= i < pos && data[..pos][i] != 0;
      }
    }

    /** A sparse file is only sought over a block of zeros. */
    method Write(data: bytes) returns (ok: bool)
      requires Valid()
      modifies this`file, this`fed
      ensures Valid() && (ok <==> open)
      ensures ok ==> fed == old(fed) + data
    {
      if !open {
        return false;
      }
      if !simul {
        var zero := false;
        if sparse {
          zero := IsBlockZero(data);
        }
        if zero {
          assert data == Zeros(|data|);
          file := file.(pos := file.pos + |data|);
        } else {
          file := Written(file, data);
        }
      }
      fed := fed + data;
      ok := true;
    }

    /** Truncating a sparse file to the position makes up for a last block that was only sought over:
        whether sparse or not, the file holds exactly what was written. */
    method Close() returns (ok: bool)
      requires Valid()
      modifies this`file, this`open
      ensures ok == old(open) && !open
      ensures old(open) && !simul ==> file.contents == fed
    {
      if !open {
        return false;
      }
      if !simul && sparse {
        file := file.(contents := Truncated(file.contents, file.pos));
      }
      open := false;
      ok := true;
    }
  }

  function Concat(blocks: seq<bytes>): bytes {
    if blocks == [] then [] else Concat(blocks[..|blocks| - 1]) + blocks[|blocks| - 1]
  }

  /** A whole file, block by block: sparse and dense writing leave the same contents and length. */
  method WriteAll(blocks: seq<bytes>, sparse: bool) returns (contents: bytes)
    ensures contents == Concat(blocks)
  {
    var f := new DataFile();
    var ok := f.OpenWrite(false, sparse);
    for i := 0 to |blocks|
      invariant f.Valid() && f.open && !f.simul && f.fed == Concat(blocks[..i])
    {
      assert blocks[..i + 1][..i] == blocks[..i];
      ok := f.Write(blocks[i]);
    }
    assert blocks[..|blocks|] == blocks;
    ok := f.Close();
    contents := f.file.contents;
  }
}
