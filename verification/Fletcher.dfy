/** The checksum of src/common.c: two running byte sums, reduced modulo 65535 once per 360 bytes. */
module Fletcher {
  import opened Bytes

  const BATCH := 360
  const MODULUS := 65535

  /** The sum of all bytes. */
  function Sum(d: bytes): nat {
    if d == [] then 0 else Sum(d[..|d| - 1]) + d[|d| - 1]
  }

  /** The sum of the sums of all non-empty prefixes. */
  function SumOfPrefixSums(d: bytes): nat {
    if d == [] then 0 else SumOfPrefixSums(d[..|d| - 1]) + Sum(d)
  }

  /** The representative of x modulo 65535 that lies in 1..65535. */
  function Rep(x: nat): u32 {
    if x % MODULUS == 0 then MODULUS else x % MODULUS
  }

  /** What the checksum is, without batches and without deferred reductions. */
  function Checksum(d: bytes): u32 {
    Rep(SumOfPrefixSums(d)) * 0x1_0000 + Rep(Sum(d))
  }

  /** The low half stands for the sum of the bytes, the high half for the sum of the prefix sums, and neither is
      ever zero. */
  lemma {:induction false} Halves(d: bytes)
    ensures var low, high := Checksum(d) % 0x1_0000, Checksum(d) / 0x1_0000;
            && 1 <= low <= 65535 && 1 <= high <= 65535
            && low % 65535 == Sum(d) % 65535 && high % 65535 == SumOfPrefixSums(d) % 65535
  {}

  /** 1, 2, 3: the sum is 6, that of the prefix sums 1, 3, 6 is 10. */
  lemma {:induction false} OneTwoThree()
    ensures Checksum([1, 2, 3]) == 0x000a_0006 && Checksum([]) == 0xffff_ffff
  {
    var d: bytes := [1, 2, 3];
    assert d[..2] == [1, 2] && d[..2][..1] == [1] && d[..2][..1][..0] == [];
    assert Sum([1]) == 1 && Sum([1, 2]) == 3 && Sum(d) == 6;
    assert SumOfPrefixSums([1]) == 1 && SumOfPrefixSums([1, 2]) == 4 && SumOfPrefixSums(d) == 10;
  }

  function Fold(x: u32): u32 {
    x % 0x1_0000 + x / 0x1_0000
  }

  lemma {:induction false} RepUnique(r: nat, x: nat, m: int)
    requires 1 <= r <= MODULUS && r == x - MODULUS * m
    ensures r == Rep(x)
  {
    if r == MODULUS {
      assert x == MODULUS * (m + 1);
    } else {
      assert x == MODULUS * m + r;
      assert x / MODULUS == m;
    }
  }

  /** The deferred, batched loop: every intermediate value fits 32 bits, and the result is Checksum. */
  method Fletcher32(data: array<byte>) returns (r: u32)
    requires data.Length < 0x1_0000_0000
    ensures r == Checksum(data[..])
  {
    var sum1: u32, sum2: u32 := 0xffff, 0xffff;
    var len: u32, next := data.Length, 0; // next is the cursor that the source advances with data++
    ghost var m1: int, m2: int := -1, -1; // multiples of 65535 removed so far
    while len > 0
      invariant next + len == data.Length
      invariant 1 <= sum1 <= 0x1_fffe && 1 <= sum2 <= 0x1_fffe
      invariant sum1 == Sum(data[..next]) - MODULUS * m1
      invariant sum2 == SumOfPrefixSums(data[..next]) - MODULUS * m2
    {
      var tlen: u32 := if len > BATCH then BATCH else len;
      ghost var batch := tlen;
      len := len - tlen;
      while true
        invariant 0 < tlen <= batch <= BATCH && next + tlen + len == data.Length
        invariant 1 <= sum1 <= 0x1_fffe + 255 * (batch - tlen)
        invariant 1 <= sum2 <= 0x1_fffe + (0x1_fffe + 255 * BATCH) * (batch - tlen)
        invariant sum1 == Sum(data[..next]) - MODULUS * m1
        invariant sum2 == SumOfPrefixSums(data[..next]) - MODULUS * m2
        decreases tlen
      {
        assert data[..next + 1][..next] == data[..next];
        sum1 := sum1 + data[next];
        sum2 := sum2 + sum1;
        m2 := m2 + m1;
        next := next + 1;
        tlen := tlen - 1;
        if tlen == 0 { break; }
      }
      m1, m2 := m1 + sum1 / 0x1_0000, m2 + sum2 / 0x1_0000;
      sum1 := Fold(sum1);
      sum2 := Fold(sum2);
    }
    assert data[..data.Length] == data[..];
    m1, m2 := m1 + sum1 / 0x1_0000, m2 + sum2 / 0x1_0000;
    sum1 := Fold(sum1);
    sum2 := Fold(sum2);
    RepUnique(sum1, Sum(data[..]), m1);
    RepUnique(sum2, SumOfPrefixSums(data[..]), m2);
    r := sum2 * 0x1_0000 + sum1;
  }

  /** The checksum of bytes that are not in an array yet. */
  method ChecksumOf(data: bytes) returns (sum: u32)
    requires |data| < 0x1_0000_0000
    ensures sum == Checksum(data)
  {
    var a := new byte[|data|](i requires 0 <= i < |data| => data[i]);
    assert a[..] == data;
    sum := Fletcher32(a);
  }

  lemma {:induction false} SumUpdate(d: bytes, i: nat, x: byte)
    requires i < |d|
    ensures Sum(d[i := x]) == Sum(d) + (x - d[i])
  {
    var n := |d| - 1;
    if i == n {
      assert d[i := x][..n] == d[..n];
    } else {
      SumUpdate(d[..n], i, x);
      assert d[i := x][..n] == d[..n][i := x];
    }
  }

  /** A byte at distance k from the end is counted k times. */
  lemma {:induction false} PrefixSumsUpdate(d: bytes, i: nat, x: byte)
    requires i < |d|
    ensures SumOfPrefixSums(d[i := x]) == SumOfPrefixSums(d) + (|d| - i) * (x - d[i])
  {
    hide Sum;
    var n := |d| - 1;
    SumUpdate(d, i, x);
    if i == n {
      assert d[i := x][..n] == d[..n];
    } else {
      PrefixSumsUpdate(d[..n], i, x);
      assert d[i := x][..n] == d[..n][i := x];
      OneMore(n - i, x - d[i]);
    }
  }

  lemma {:induction false} OneMore(k: int, a: int)
    ensures (k + 1) * a == k * a + a
  {
  }

  lemma {:induction false} RepSame(x: nat, y: nat)
    ensures Rep(x) == Rep(y) <==> (x - y) % MODULUS == 0
  {
    var qx, qy := x / MODULUS, y / MODULUS;
    assert x - y == MODULUS * (qx - qy) + (x % MODULUS - y % MODULUS);
    if (x - y) % MODULUS == 0 {
      assert x - y == MODULUS * ((x - y) / MODULUS);
    }
  }

  lemma {:induction false} SmallMultiple(d: int)
    requires -MODULUS < d < MODULUS
    ensures d % MODULUS == 0 <==> d == 0
  {
  }

  /** Two buffers collide exactly when both kinds of sum agree modulo 65535. */
  lemma {:induction false} CollisionIff(a: bytes, b: bytes)
    ensures Checksum(a) == Checksum(b) <==>
            (Sum(a) - Sum(b)) % MODULUS == 0 &&
            (SumOfPrefixSums(a) - SumOfPrefixSums(b)) % MODULUS == 0
  {
    RepSame(Sum(a), Sum(b));
    RepSame(SumOfPrefixSums(a), SumOfPrefixSums(b));
  }

  lemma {:induction false} OneByteDetected(d: bytes, i: nat, x: byte)
    requires i < |d| && x != d[i]
    ensures Checksum(d[i := x]) != Checksum(d)
  {
    SumUpdate(d, i, x);
    SmallMultiple(x - d[i]);
    CollisionIff(d[i := x], d);
  }

  /** Changing two bytes goes unnoticed exactly when the changes cancel and their distance times
      the change is a multiple of 65535. */
  lemma {:induction false} TwoBytesUndetectedIff(d: bytes, i: nat, j: nat, x: byte, y: byte)
    requires i < j < |d|
    ensures Checksum(d[i := x][j := y]) == Checksum(d) <==>
            (x - d[i]) + (y - d[j]) == 0 && ((x - d[i]) * (j - i)) % MODULUS == 0
  {
    hide Sum, SumOfPrefixSums, Checksum;
    var e := d[i := x][j := y];
    var dx, dy := x - d[i], y - d[j];
    SumUpdate(d, i, x);
    SumUpdate(d[i := x], j, y);
    PrefixSumsUpdate(d, i, x);
    PrefixSumsUpdate(d[i := x], j, y);
    SmallMultiple(dx + dy);
    CollisionIff(e, d);
    assert SumOfPrefixSums(e) - SumOfPrefixSums(d) == (|d| - i) * dx + (|d| - j) * dy;
    if dy == -dx {
      CancellingChanges(|d| - i, |d| - j, dx);
    }
  }

  lemma {:induction false} CancellingChanges(p: nat, q: nat, dx: int)
    ensures p * dx + q * (-dx) == dx * (p - q)
  {
  }

  /** Any change confined to two bytes at most 256 apart is detected. */
  lemma {:induction false} TwoNearBytesDetected(d: bytes, i: nat, j: nat, x: byte, y: byte)
    requires i < j < |d| && j - i <= 256
    requires x != d[i] || y != d[j]
    ensures Checksum(d[i := x][j := y]) != Checksum(d)
  {
    TwoBytesUndetectedIff(d, i, j, x, y);
    if x != d[i] {
      ProductBound(x - d[i], j - i);
      SmallMultiple((x - d[i]) * (j - i));
    }
  }

  lemma {:induction false} ProductBound(a: int, k: nat)
    requires a != 0 && -255 <= a <= 255
    ensures -255 * k <= a * k <= 255 * k
    ensures k > 0 ==> a * k != 0
  {
    if k > 0 {
      ProductBound(a, k - 1);
      assert a * k == a * (k - 1) + a;
    }
  }

  /** The bound 256 is sharp: swapping the bytes 0 and 255 at distance 257 is never noticed. */
  lemma {:induction false} DistanceBoundSharp(d: bytes, i: nat)
    requires i + 257 < |d| && d[i] == 0 && d[i + 257] == 255
    ensures d[i := 255][i + 257 := 0] != d
    ensures Checksum(d[i := 255][i + 257 := 0]) == Checksum(d)
  {
    TwoBytesUndetectedIff(d, i, i + 257, 255, 0);
    assert d[i := 255][i + 257 := 0][i] != d[i];
  }
}
