/** Filling bins in arrival order: close the current bin as soon as the next item does not fit.
    Volumes of an archive and shared blocks of small files are both filled this way. */
module Greedy {

  /** The bins, the last one being still open; `cur` is what the open bin already holds. */
  function Fill<T>(cur: seq<T>, items: seq<T>, fits: seq<T> -> bool): (bins: seq<seq<T>>)
    ensures |bins| >= 1
    decreases |items|
  {
    if items == [] then [cur]
    else if fits(cur + [items[0]]) then Fill(cur + [items[0]], items[1..], fits)
    else [cur] + Fill([items[0]], items[1..], fits)
  }

  function Flatten<T>(bins: seq<seq<T>>): seq<T> {
    if bins == [] then [] else bins[0] + Flatten(bins[1..])
  }

  /** Whatever fits still fits after items are taken away at either end. */
  ghost predicate Hereditary<T(!new)>(fits: seq<T> -> bool) {
    forall a: seq<T>, b: seq<T> :: fits(a + b) ==> fits(a) && fits(b)
  }

  /** Nothing is lost, repeated or reordered. */
  lemma {:induction false} FillKeepsItems<T>(cur: seq<T>, items: seq<T>, fits: seq<T> -> bool)
    ensures Flatten(Fill(cur, items, fits)) == cur + items
    decreases |items|
  {
    if items == [] {
      assert Flatten([cur]) == cur + Flatten([]);
    } else if fits(cur + [items[0]]) {
      FillKeepsItems(cur + [items[0]], items[1..], fits);
      assert cur + [items[0]] + items[1..] == cur + items;
    } else {
      FillKeepsItems([items[0]], items[1..], fits);
      assert [items[0]] + items[1..] == items;
      var rest := Fill([items[0]], items[1..], fits);
      assert ([cur] + rest)[1..] == rest;
    }
  }

  /** Every bin fits, provided every item fits on its own. */
  lemma {:induction false} FillFits<T>(cur: seq<T>, items: seq<T>, fits: seq<T> -> bool)
    requires fits(cur)
    requires forall i :: 0 <= i < |items| ==> fits([items[i]])
    ensures forall b :: b in Fill(cur, items, fits) ==> fits(b)
    decreases |items|
  {
    if items == [] {
    } else if fits(cur + [items[0]]) {
      FillFits(cur + [items[0]], items[1..], fits);
    } else {
      assert fits([items[0]]);
      FillFits([items[0]], items[1..], fits);
    }
  }

  /** A bin that does not fit holds one item, which would not fit anywhere. */
  lemma {:induction false} FillFitsOrSingle<T>(cur: seq<T>, items: seq<T>, fits: seq<T> -> bool)
    requires fits(cur) || |cur| == 1
    ensures forall b :: b in Fill(cur, items, fits) ==> fits(b) || |b| == 1
    decreases |items|
  {
    if items == [] {
    } else if fits(cur + [items[0]]) {
      FillFitsOrSingle(cur + [items[0]], items[1..], fits);
    } else {
      FillFitsOrSingle([items[0]], items[1..], fits);
    }
  }

  /** A run of items that fits behind `cur` opens no bin. */
  lemma {:induction false} NoNewBin<T(!new)>(cur: seq<T>, run: seq<T>, tail: seq<T>, fits: seq<T> -> bool)
    requires Hereditary(fits) && fits(cur + run)
    ensures Fill(cur, run + tail, fits) == Fill(cur + run, tail, fits)
    decreases |run|
  {
    if run == [] {
      assert run + tail == tail && cur + run == cur;
    } else {
      assert cur + run == cur + [run[0]] + run[1..];
      NoNewBin(cur + [run[0]], run[1..], tail, fits);
      assert (run + tail)[1..] == run[1..] + tail;
    }
  }

  /** A run of items that fits in one bin opens at most one. */
  lemma {:induction false} OneNewBin<T(!new)>(cur: seq<T>, run: seq<T>, tail: seq<T>, fits: seq<T> -> bool)
    returns (next: seq<T>)
    requires Hereditary(fits) && fits(run)
    ensures |Fill(cur, run + tail, fits)| <= 1 + |Fill(next, tail, fits)|
    decreases |run|
  {
    if run == [] {
      assert run + tail == tail;
      next := cur;
    } else {
      var x, rest := run[0], run[1..];
      assert run == [x] + rest && (run + tail)[1..] == rest + tail;
      if fits(cur + [x]) {
        next := OneNewBin(cur + [x], rest, tail, fits);
      } else {
        NoNewBin([x], rest, tail, fits);
        next := [x] + rest;
      }
    }
  }

  lemma {:induction false} BinsBound<T(!new)>(cur: seq<T>, bins: seq<seq<T>>, fits: seq<T> -> bool)
    requires Hereditary(fits)
    requires forall b :: b in bins ==> fits(b)
    ensures |Fill(cur, Flatten(bins), fits)| <= 1 + |bins|
    decreases |bins|
  {
    if bins != [] {
      var next := OneNewBin(cur, bins[0], Flatten(bins[1..]), fits);
      BinsBound(next, bins[1..], fits);
    }
  }

  /** No order-preserving division into bins that fit uses fewer bins. */
  lemma {:induction false} FillOptimal<T(!new)>(items: seq<T>, bins: seq<seq<T>>, fits: seq<T> -> bool)
    requires Hereditary(fits)
    requires bins != [] && Flatten(bins) == items
    requires forall b :: b in bins ==> fits(b)
    ensures |Fill([], items, fits)| <= |bins|
  {
    assert [] + bins[0] == bins[0];
    NoNewBin([], bins[0], Flatten(bins[1..]), fits);
    BinsBound(bins[0], bins[1..], fits);
  }

  /** One more item at the end changes only the last bin, or opens a new one. */
  function Add<T>(bins: seq<seq<T>>, x: T, fits: seq<T> -> bool): (r: seq<seq<T>>)
    requires bins != []
    ensures r != []
  {
    var n := |bins| - 1;
    if fits(bins[n] + [x]) then bins[n := bins[n] + [x]] else bins + [[x]]
  }

  lemma {:induction false} FillSnoc<T>(cur: seq<T>, items: seq<T>, x: T, fits: seq<T> -> bool)
    ensures Fill(cur, items + [x], fits) == Add(Fill(cur, items, fits), x, fits)
    decreases |items|
  {
    if items == [] {
      assert (items + [x])[1..] == [];
    } else {
      hide Add;
      assert (items + [x])[1..] == items[1..] + [x];
      if fits(cur + [items[0]]) {
        FillSnoc(cur + [items[0]], items[1..], x, fits);
      } else {
        FillSnoc([items[0]], items[1..], x, fits);
        AddBehind(cur, Fill([items[0]], items[1..], fits), x, fits);
      }
    }
  }

  /** What is added does not change the bins before the last one. */
  lemma {:induction false} AddBehind<T>(bin: seq<T>, bins: seq<seq<T>>, x: T, fits: seq<T> -> bool)
    requires bins != []
    ensures Add([bin] + bins, x, fits) == [bin] + Add(bins, x, fits)
  {}

  /** Opening a new bin first and then putting the item into the last bin comes to the same. */
  lemma {:induction false} OpenThenPut<T>(bins: seq<seq<T>>, x: T, fits: seq<T> -> bool)
    requires bins != []
    ensures var bins1 := if fits(bins[|bins| - 1] + [x]) then bins else bins + [[]];
            bins1[|bins1| - 1 := bins1[|bins1| - 1] + [x]] == Add(bins, x, fits)
  {
    assert [] + [x] == [x];
  }
}
