/** Sums over sequences. */
module Sums {

  function SumBy<T>(f: T -> nat, s: seq<T>): nat {
    if s == [] then 0 else SumBy(f, s[..|s| - 1]) + f(s[|s| - 1])
  }

  lemma {:induction false} SumConcat<T>(f: T -> nat, a: seq<T>, b: seq<T>)
    ensures SumBy(f, a + b) == SumBy(f, a) + SumBy(f, b)
  {
    if b == [] {
      assert a + b == a;
    } else {
      SumConcat(f, a, b[..|b| - 1]);
      assert (a + b)[..|a + b| - 1] == a + b[..|b| - 1];
    }
  }

  lemma {:induction false} SumOne<T>(f: T -> nat, x: T)
    ensures SumBy(f, [x]) == f(x)
  {
    assert [x][..0] == [];
  }

  lemma {:induction false} SumAppend<T>(f: T -> nat, s: seq<T>, x: T)
    ensures SumBy(f, s + [x]) == SumBy(f, s) + f(x)
  {
    SumConcat(f, s, [x]);
    SumOne(f, x);
  }

  lemma {:induction false} SumHead<T>(f: T -> nat, s: seq<T>)
    requires s != []
    ensures SumBy(f, s) == f(s[0]) + SumBy(f, s[1..])
  {
    assert s == [s[0]] + s[1..];
    SumConcat(f, [s[0]], s[1..]);
    SumOne(f, s[0]);
  }

  lemma {:induction false} SumUpdate<T>(f: T -> nat, s: seq<T>, i: nat, x: T)
    requires i < |s|
    ensures SumBy(f, s[i := x]) == SumBy(f, s) + f(x) - f(s[i])
  {
    assert s == s[..i] + [s[i]] + s[i + 1..];
    assert s[i := x] == s[..i] + [x] + s[i + 1..];
    SumConcat(f, s[..i] + [s[i]], s[i + 1..]);
    SumConcat(f, s[..i] + [x], s[i + 1..]);
    SumAppend(f, s[..i], s[i]);
    SumAppend(f, s[..i], x);
  }

  lemma {:induction false} SumAtMost<T>(f: T -> nat, s: seq<T>, m: nat)
    requires forall x :: x in s ==> f(x) <= m
    ensures SumBy(f, s) <= m * |s|
  {
    if s != [] {
      SumAtMost(f, s[..|s| - 1], m);
    }
  }
}
