/** Sums over sequences, and how sequences are put together. */
module Totals {
  function Total<T>(xs: seq<T>, f: T -> nat): nat {
    if xs == [] then 0 else Total(xs[..|xs| - 1], f) + f(xs[|xs| - 1])
  }

  lemma Regroup<T>(a: seq<T>, b: seq<T>, c: seq<T>)
    ensures (a + b) + c == a + (b + c)
  {
  }

  lemma Parted<T>(xs: seq<T>, n: nat)
    requires n < |xs|
    ensures xs == xs[..n] + [xs[n]] + xs[n + 1..]
  {
  }

  lemma TotalSnoc<T>(xs: seq<T>, x: T, f: T -> nat)
    ensures Total(xs + [x], f) == Total(xs, f) + f(x)
  {
    assert (xs + [x])[..|xs|] == xs;
  }

  lemma TotalTake<T>(xs: seq<T>, i: nat, f: T -> nat)
    requires i < |xs|
    ensures Total(xs[..i + 1], f) == Total(xs[..i], f) + f(xs[i])
  {
    assert xs[..i + 1] == xs[..i] + [xs[i]];
    TotalSnoc(xs[..i], xs[i], f);
  }

  lemma {:induction false} TotalMono<T>(xs: seq<T>, ys: seq<T>, f: T -> nat)
    requires |xs| == |ys| && forall i :: 0 <= i < |xs| ==> f(xs[i]) <= f(ys[i])
    ensures Total(xs, f) <= Total(ys, f)
  {
    if xs != [] {
      TotalMono(xs[..|xs| - 1], ys[..|ys| - 1], f);
    }
  }

  lemma {:induction false} TotalFalls<T>(xs: seq<T>, ys: seq<T>, f: T -> nat, k: nat)
    requires |xs| == |ys| && k < |xs| && f(xs[k]) < f(ys[k]) && forall i :: 0 <= i < |xs| ==> f(xs[i]) <= f(ys[i])
    ensures Total(xs, f) < Total(ys, f)
    decreases |xs|
  {
    var n := |xs| - 1;
    if k < n {
      TotalFalls(xs[..n], ys[..n], f, k);
    } else {
      TotalMono(xs[..n], ys[..n], f);
    }
  }

  lemma {:induction false} TotalUpdate<T>(xs: seq<T>, k: nat, y: T, f: T -> nat)
    requires k < |xs|
    ensures Total(xs[k := y], f) + f(xs[k]) == Total(xs, f) + f(y)
  {
    var n := |xs| - 1;
    if k < n {
      TotalUpdate(xs[..n], k, y, f);
      assert xs[k := y][..n] == xs[..n][k := y];
    } else {
      assert xs[k := y][..n] == xs[..n];
    }
  }

  lemma {:induction false} TotalAtLeast<T>(xs: seq<T>, k: nat, f: T -> nat)
    requires k < |xs|
    ensures f(xs[k]) <= Total(xs, f)
  {
    if k < |xs| - 1 {
      TotalAtLeast(xs[..|xs| - 1], k, f);
    }
  }

  lemma {:induction false} TotalRemove<T>(xs: seq<T>, k: nat, f: T -> nat)
    requires k < |xs|
    ensures Total(xs, f) == Total(xs[..k] + xs[k + 1..], f) + f(xs[k])
    decreases |xs|
  {
    var n := |xs| - 1;
    var rest := xs[..k] + xs[k + 1..];
    if k < n {
      TotalRemove(xs[..n], k, f);
      assert rest == (xs[..n][..k] + xs[..n][k + 1..]) + [xs[n]];
      TotalSnoc(xs[..n][..k] + xs[..n][k + 1..], xs[n], f);
    } else {
      assert rest == xs[..n];
    }
  }

  // Taking one element from two lists of the same elements.

  lemma RemoveAt<T>(ys: seq<T>, k: nat)
    requires k < |ys|
    ensures multiset(ys) == multiset(ys[..k] + ys[k + 1..]) + multiset{ys[k]}
  {
    assert ys == ys[..k] + [ys[k]] + ys[k + 1..];
    assert multiset(ys[..k] + [ys[k]] + ys[k + 1..]) == multiset(ys[..k] + ys[k + 1..]) + multiset{ys[k]};
  }

  /** The last element of one list and a place it has in the other; the remainders have the same elements. */
  lemma LastIn<T>(xs: seq<T>, ys: seq<T>) returns (k: nat)
    requires xs != [] && multiset(xs) == multiset(ys)
    ensures k < |ys| && ys[k] == xs[|xs| - 1] && multiset(xs[..|xs| - 1]) == multiset(ys[..k] + ys[k + 1..])
  {
    var n := |xs| - 1;
    assert xs == xs[..n] + [xs[n]];
    assert xs[n] in multiset(ys);
    k :| k < |ys| && ys[k] == xs[n];
    RemoveAt(ys, k);
    assert multiset(xs) == multiset(xs[..n]) + multiset{xs[n]};
    assert multiset(xs[..n]) == multiset(xs) - multiset{xs[n]};
  }

  lemma Headless<T>(xs: seq<T>)
    requires xs != []
    ensures multiset(xs[1..]) == multiset(xs) - multiset{xs[0]}
  {
    assert xs == [xs[0]] + xs[1..];
    assert multiset(xs) == multiset([xs[0]]) + multiset(xs[1..]);
  }

  lemma FirstOff<T>(xs: seq<T>, ys: seq<T>)
    requires xs != [] && ys != [] && xs[0] == ys[0] && multiset(xs) == multiset(ys)
    ensures multiset(xs[1..]) == multiset(ys[1..])
  {
    Headless(xs);
    Headless(ys);
  }

  /** A sum does not depend on the order of its terms. */
  lemma {:induction false} TotalPermute<T>(xs: seq<T>, ys: seq<T>, f: T -> nat)
    requires multiset(xs) == multiset(ys)
    ensures Total(xs, f) == Total(ys, f)
    decreases |xs|
  {
    if xs == [] {
      assert |multiset(ys)| == 0;
    } else {
      var k := LastIn(xs, ys);
      TotalPermute(xs[..|xs| - 1], ys[..k] + ys[k + 1..], f);
      TotalRemove(ys, k, f);
    }
  }

  predicate NoDuplicates<T(==)>(xs: seq<T>) {
    forall i, k :: 0 <= i < k < |xs| ==> xs[i] != xs[k]
  }

  lemma Twice<T>(xs: seq<T>, i: nat, k: nat)
    requires i < k < |xs|
    ensures xs[i] == xs[k] ==> multiset(xs)[xs[i]] >= 2
  {
    assert xs == xs[..k] + xs[k..];
    assert xs[..k][i] in multiset(xs[..k]) && xs[k..][0] in multiset(xs[k..]);
    assert multiset(xs) == multiset(xs[..k]) + multiset(xs[k..]);
  }

  lemma {:induction false} NoDuplicatesCount<T>(xs: seq<T>, x: T)
    requires NoDuplicates(xs)
    ensures multiset(xs)[x] == if x in xs then 1 else 0
  {
    if xs != [] {
      var n := |xs| - 1;
      NoDuplicatesCount(xs[..n], x);
      assert xs == xs[..n] + [xs[n]];
    }
  }

  lemma SameElementsPermute<T>(xs: seq<T>, ys: seq<T>)
    requires NoDuplicates(xs) && NoDuplicates(ys)
    requires forall x :: x in xs <==> x in ys
    ensures multiset(xs) == multiset(ys)
  {
    forall x
      ensures multiset(xs)[x] == multiset(ys)[x]
    {
      NoDuplicatesCount(xs, x);
      NoDuplicatesCount(ys, x);
    }
  }
}
