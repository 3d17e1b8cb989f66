/** Bytes, fixed-width unsigned integers and their little-endian encoding. */
module Bytes {
  type byte = x: int | 0 <= x < 0x100
  type u16 = x: int | 0 <= x < 0x1_0000
  type u32 = x: int | 0 <= x < 0x1_0000_0000
  type u64 = x: int | 0 <= x < 0x1_0000_0000_0000_0000

  type bytes = seq<byte>

  datatype Option<+T> = None | Some(value: T)

  function Min(a: int, b: int): int {
    if a < b then a else b
  }

  function Zeros(n: nat): (z: bytes)
    ensures |z| == n
  {
    seq(n, _ => 0)
  }

  /** Room for n bytes filled from `data`: cut off behind n bytes, or padded with zeros. */
  function Fit(data: bytes, n: nat): (r: bytes)
    ensures |r| == n
  {
    if |data| >= n then data[..n] else data + Zeros(n - |data|)
  }

  /** A C string ends at its first zero. */
  function CStr(s: bytes): bytes {
    if s == [] || s[0] == 0 then [] else [s[0]] + CStr(s[1..])
  }

  lemma {:induction false} CStrOf(s: bytes)
    requires 0 !in s
    ensures CStr(s + [0]) == s
  {
    if s != [] {
      assert (s + [0])[1..] == s[1..] + [0];
      CStrOf(s[1..]);
    }
  }

  /** 256 to the power k. */
  function Pow256(k: nat): (p: nat)
    ensures p > 0
  {
    if k == 0 then 1 else 256 * Pow256(k - 1)
  }

  /** The k low bytes of n, lowest first. */
  function ToLE(n: nat, k: nat): (s: bytes)
    ensures |s| == k
  {
    if k == 0 then [] else [n % 256] + ToLE(n / 256, k - 1)
  }

  function FromLE(s: bytes): nat {
    if s == [] then 0 else s[0] + 256 * FromLE(s[1..])
  }

  lemma {:induction false} FromLEBound(s: bytes)
    ensures FromLE(s) < Pow256(|s|)
  {
    if s != [] {
      FromLEBound(s[1..]);
    }
  }

  /** Decoding recovers every number that fits, whatever its width. */
  lemma {:induction false} FromToLE(n: nat, k: nat)
    requires n < Pow256(k)
    ensures FromLE(ToLE(n, k)) == n
  {
    if k > 0 {
      FromToLE(n / 256, k - 1);
      assert ToLE(n, k)[1..] == ToLE(n / 256, k - 1);
    }
  }

  lemma {:induction false} Widths()
    ensures Pow256(2) == 0x1_0000
    ensures Pow256(4) == 0x1_0000_0000
    ensures Pow256(8) == 0x1_0000_0000_0000_0000
  {
    assert Pow256(2) == 256 * Pow256(1);
    assert Pow256(4) == 256 * Pow256(3) && Pow256(3) == 256 * Pow256(2);
    assert Pow256(8) == 256 * Pow256(7) && Pow256(7) == 256 * Pow256(6);
    assert Pow256(6) == 256 * Pow256(5) && Pow256(5) == 256 * Pow256(4);
  }

  function Le16(n: u16): (s: bytes) ensures |s| == 2 { ToLE(n, 2) }
  function Le32(n: u32): (s: bytes) ensures |s| == 4 { ToLE(n, 4) }
  function Le64(n: u64): (s: bytes) ensures |s| == 8 { ToLE(n, 8) }

  function De16(s: bytes): u16
    requires |s| == 2
  {
    Widths(); FromLEBound(s); FromLE(s)
  }

  function De32(s: bytes): u32
    requires |s| == 4
  {
    Widths(); FromLEBound(s); FromLE(s)
  }

  function De64(s: bytes): u64
    requires |s| == 8
  {
    Widths(); FromLEBound(s); FromLE(s)
  }

  lemma {:induction false} DecodeEncode16(n: u16) ensures De16(Le16(n)) == n { Widths(); FromToLE(n, 2); }
  lemma {:induction false} DecodeEncode32(n: u32) ensures De32(Le32(n)) == n { Widths(); FromToLE(n, 4); }
  lemma {:induction false} DecodeEncode64(n: u64) ensures De64(Le64(n)) == n { Widths(); FromToLE(n, 8); }
}
