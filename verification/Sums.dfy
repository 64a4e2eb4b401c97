/** Sums of a measure over a sequence. */
module Sums {
  function Total<T>(f: T -> nat, items: seq<T>): nat {
    if items == [] then 0 else Total(f, items[..|items| - 1]) + f(items[|items| - 1])
  }

  lemma TotalSnoc<T>(f: T -> nat, items: seq<T>, item: T)
    ensures Total(f, items + [item]) == Total(f, items) + f(item)
  {
    assert (items + [item])[..|items|] == items;
  }

  /** Appending items that the measure does not see leaves the sum. */
  lemma {:induction false} TotalQuiet<T>(f: T -> nat, a: seq<T>, b: seq<T>)
    requires forall item :: item in b ==> f(item) == 0
    ensures Total(f, a + b) == Total(f, a)
  {
    if b == [] {
      assert a + b == a;
    } else {
      var p, item := b[..|b| - 1], b[|b| - 1];
      TotalQuiet(f, a, p);
      TotalSnoc(f, a + p, item);
      assert a + b == (a + p) + [item];
    }
  }

  lemma TotalAppended<T>(f: T -> nat, items: seq<T>, item: T, more: seq<T>)
    requires forall m :: m in more ==> f(m) == 0
    ensures Total(f, items + [item] + more) == Total(f, items) + f(item)
  {
    TotalSnoc(f, items, item);
    TotalQuiet(f, items + [item], more);
  }

  /** Replacing one item shifts the sum by the difference. */
  lemma {:induction false} TotalUpdate<T>(f: T -> nat, items: seq<T>, i: nat, item: T)
    requires i < |items|
    ensures Total(f, items[i := item]) + f(items[i]) == Total(f, items) + f(item)
  {
    var n := |items| - 1;
    if i < n {
      TotalUpdate(f, items[..n], i, item);
      assert items[i := item][..n] == items[..n][i := item];
    } else {
      assert items[i := item][..n] == items[..n];
    }
  }

  lemma {:induction false} TotalZero<T>(f: T -> nat, items: seq<T>)
    ensures Total(f, items) == 0 <==> forall i :: 0 <= i < |items| ==> f(items[i]) == 0
  {
    if items != [] { TotalZero(f, items[..|items| - 1]); }
  }

  lemma {:induction false} TotalAtMost<T>(f: T -> nat, items: seq<T>, bound: nat)
    requires forall i :: 0 <= i < |items| ==> f(items[i]) <= bound
    ensures Total(f, items) <= |items| * bound
  {
    if items != [] { TotalAtMost(f, items[..|items| - 1], bound); }
  }
}
