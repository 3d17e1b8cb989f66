/** The names of the volumes of an archive (src/common.c). */
module VolPath {
  import opened Bytes

  const EXTENSION := ".fsa"

  /** Adds the extension unless the path ends with it. */
  function ForceExtension(path: string): (r: string)
    ensures |r| >= 4 && r[|r| - 4..] == EXTENSION
    ensures path <= r && (r == path <==> |path| >= 4 && path[|path| - 4..] == EXTENSION)
  {
    if |path| < 4 || path[|path| - 4..] != EXTENSION then path + EXTENSION else path
  }

  function Digit(d: nat): char
    requires d < 10
  {
    '0' + d as char
  }

  function Decimal(n: nat): (s: string)
    ensures s != []
  {
    if n < 10 then [Digit(n)] else Decimal(n / 10) + [Digit(n % 10)]
  }

  /** At least two digits. */
  function Padded(n: nat): (s: string)
    ensures |s| >= 2
  {
    if n < 10 then "0" + Decimal(n) else LongDecimal(n); Decimal(n)
  }

  lemma {:induction false} LongDecimal(n: nat)
    requires n >= 10
    ensures |Decimal(n)| >= 2
  {
  }

  /** Volume 0 has the path of the archive; the others replace its last two characters by a number. */
  function VolumePath(base: string, k: nat): Option<string> {
    if |base| < 4 then None
    else if k == 0 then Some(base)
    else Some(base[..|base| - 2] + Padded(k))
  }

  function Value(s: string): nat {
    if s == [] || !('0' <= s[|s| - 1] <= '9') then 0
    else 10 * Value(s[..|s| - 1]) + (s[|s| - 1] - '0') as nat
  }

  lemma {:induction false} ValueOfDecimal(n: nat)
    ensures Value(Decimal(n)) == n
  {
    var s := Decimal(n);
    if n < 10 {
      assert s[..0] == [];
    } else {
      ValueOfDecimal(n / 10);
      assert s[..|s| - 1] == Decimal(n / 10);
    }
  }

  lemma {:induction false} ValueOfPadded(n: nat)
    ensures Value(Padded(n)) == n
  {
    ValueOfDecimal(n);
    if n < 10 {
      var s := Padded(n);
      assert s[..1] == "0" && "0"[..0] == [];
      assert Value("0") == 10 * Value([]) + 0;
      assert s[1] == Digit(n);
    }
  }

  lemma {:induction false} EndsWithDigit(n: nat)
    ensures var s := Padded(n); '0' <= s[|s| - 1] <= '9'
  {
    var s := Decimal(n);
    assert '0' <= s[|s| - 1] <= '9';
  }

  predicate IsDigit(c: char) {
    '0' <= c <= '9'
  }

  lemma {:induction false} DecimalDigits(n: nat)
    ensures forall i :: 0 <= i < |Decimal(n)| ==> IsDigit(Decimal(n)[i])
    ensures n < 10 ==> |Decimal(n)| == 1
    ensures 10 <= n < 100 ==> |Decimal(n)| == 2
  {
    if n >= 10 {
      DecimalDigits(n / 10);
    }
  }

  /** The first volume has the path of the archive. Any other has it too but for the last two characters, where
      its number stands in decimal digits: two of them up to number 99. */
  lemma {:induction false} VolumeNamed(base: string, k: nat)
    ensures |base| < 4 ==> VolumePath(base, k) == None
    ensures |base| >= 4 ==>
              VolumePath(base, k).Some? &&
              var p, n := VolumePath(base, k).value, |base| - 2;
              && (k == 0 ==> p == base)
              && (k > 0 ==>
                    && |p| >= |base| && p[..n] == base[..n] && Value(p[n..]) == k
                    && (forall i :: n <= i < |p| ==> IsDigit(p[i]))
                    && (k < 100 ==> |p| == |base|))
  {
    if |base| >= 4 && k > 0 {
      var n := |base| - 2;
      ValueOfPadded(k);
      DecimalDigits(k);
      var p := base[..n] + Padded(k);
      assert p[n..] == Padded(k) && p[..n] == base[..n];
    }
  }

  lemma {:induction false} NumberBehind(prefix: string, n: nat)
    ensures var p := prefix + Padded(n); IsDigit(p[|p| - 1]) && Value(p[|prefix|..]) == n
  {
    hide Padded;
    EndsWithDigit(n);
    ValueOfPadded(n);
    var p := prefix + Padded(n);
    assert p[|prefix|..] == Padded(n) && p[|p| - 1] == Padded(n)[|Padded(n)| - 1];
  }

  lemma {:induction false} EndsInLetter(archive: string)
    ensures var base := ForceExtension(archive); base[|base| - 1] == 'a'
  {
    var base := ForceExtension(archive);
    assert base[|base| - 1] == base[|base| - 4..][3];
  }

  /** No two volumes of an archive share a path. */
  lemma {:induction false} PathsDistinct(archive: string, j: nat, k: nat)
    requires j != k
    ensures VolumePath(ForceExtension(archive), j) != VolumePath(ForceExtension(archive), k)
  {
    hide ForceExtension, Padded, Value;
    EndsInLetter(archive);
    var base := ForceExtension(archive);
    NumberBehind(base[..|base| - 2], j);
    NumberBehind(base[..|base| - 2], k);
  }
}
