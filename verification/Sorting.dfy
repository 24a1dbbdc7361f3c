/** Sorting by a total order: the result depends only on which elements are sorted. */
module Sorting {
  import Totals

  ghost predicate Preorder<T(!new)>(le: (T, T) -> bool) {
    && (forall a :: le(a, a))
    && (forall a, b :: le(a, b) || le(b, a))
    && (forall a, b, c :: le(a, b) && le(b, c) ==> le(a, c))
  }

  ghost predicate TotalOrder<T(!new)>(le: (T, T) -> bool) {
    Preorder(le) && forall a, b :: le(a, b) && le(b, a) ==> a == b
  }

  predicate Ascending<T>(xs: seq<T>, le: (T, T) -> bool) {
    forall i, k :: 0 <= i < k < |xs| ==> le(xs[i], xs[k])
  }

  function Insert<T>(x: T, xs: seq<T>, le: (T, T) -> bool): (r: seq<T>)
    ensures multiset(r) == multiset(xs) + multiset{x}
  {
    if xs == [] then [x]
    else if le(x, xs[0]) then [x] + xs
    else
      assert xs == [xs[0]] + xs[1..];
      [xs[0]] + Insert(x, xs[1..], le)
  }

  function Sort<T>(xs: seq<T>, le: (T, T) -> bool): (r: seq<T>)
    ensures multiset(r) == multiset(xs)
  {
    if xs == [] then []
    else
      assert xs == [xs[0]] + xs[1..];
      Insert(xs[0], Sort(xs[1..], le), le)
  }

  lemma InsertedFrom<T>(x: T, xs: seq<T>, le: (T, T) -> bool, k: nat)
    requires k < |Insert(x, xs, le)|
    ensures Insert(x, xs, le)[k] == x || Insert(x, xs, le)[k] in xs
  {
    var r := Insert(x, xs, le);
    assert r[k] in multiset(r);
  }

  lemma {:induction false} InsertAscending<T(!new)>(x: T, xs: seq<T>, le: (T, T) -> bool)
    requires Preorder(le) && Ascending(xs, le)
    ensures Ascending(Insert(x, xs, le), le)
  {
    if xs != [] && !le(x, xs[0]) {
      InsertAscending(x, xs[1..], le);
      var r := Insert(x, xs[1..], le);
      forall k | 0 <= k < |r|
        ensures le(xs[0], r[k])
      {
        InsertedFrom(x, xs[1..], le, k);
      }
    }
  }

  lemma {:induction false} SortAscending<T(!new)>(xs: seq<T>, le: (T, T) -> bool)
    requires Preorder(le)
    ensures Ascending(Sort(xs, le), le)
  {
    if xs != [] {
      SortAscending(xs[1..], le);
      InsertAscending(xs[0], Sort(xs[1..], le), le);
    }
  }

  /** Two ascending lists of the same elements are equal. */
  lemma {:induction false} AscendingUnique<T(!new)>(xs: seq<T>, ys: seq<T>, le: (T, T) -> bool)
    requires TotalOrder(le) && Ascending(xs, le) && Ascending(ys, le) && multiset(xs) == multiset(ys)
    ensures xs == ys
  {
    if xs == [] {
      assert |multiset(ys)| == 0;
    } else {
      assert |multiset(xs)| == |xs| && |multiset(ys)| == |ys|;
      assert xs[0] in multiset(ys) && ys[0] in multiset(xs);
      assert le(xs[0], ys[0]) && le(ys[0], xs[0]);
      Totals.FirstOff(xs, ys);
      AscendingUnique(xs[1..], ys[1..], le);
    }
  }

  lemma SortPermute<T(!new)>(xs: seq<T>, ys: seq<T>, le: (T, T) -> bool)
    requires TotalOrder(le) && multiset(xs) == multiset(ys)
    ensures Sort(xs, le) == Sort(ys, le)
  {
    SortAscending(xs, le);
    SortAscending(ys, le);
    AscendingUnique(Sort(xs, le), Sort(ys, le), le);
  }

  lemma SortEmpty<T>(xs: seq<T>, le: (T, T) -> bool)
    ensures Sort(xs, le) == [] <==> xs == []
  {
    assert |multiset(Sort(xs, le))| == |multiset(xs)|;
  }

  // Collecting.

  /** The concatenation of g over a list. */
  function Gather<S, T>(xs: seq<S>, g: S -> seq<T>): seq<T> {
    if xs == [] then [] else Gather(xs[..|xs| - 1], g) + g(xs[|xs| - 1])
  }

  lemma GatherTake<S, T>(xs: seq<S>, i: nat, g: S -> seq<T>)
    requires i < |xs|
    ensures Gather(xs[..i + 1], g) == Gather(xs[..i], g) + g(xs[i])
  {
    assert xs[..i + 1][..i] == xs[..i];
  }

  lemma {:induction false} GatherConcat<S, T>(xs: seq<S>, ys: seq<S>, g: S -> seq<T>)
    ensures Gather(xs + ys, g) == Gather(xs, g) + Gather(ys, g)
  {
    if ys == [] {
      assert xs + ys == xs;
    } else {
      var n := |ys| - 1;
      GatherConcat(xs, ys[..n], g);
      assert (xs + ys)[..|xs + ys| - 1] == xs + ys[..n];
    }
  }

  lemma GatherAround<S, T>(pre: seq<S>, x: S, post: seq<S>, g: S -> seq<T>)
    ensures Gather(pre + [x] + post, g) == Gather(pre, g) + g(x) + Gather(post, g)
  {
    GatherConcat(pre + [x], post, g);
    assert (pre + [x])[..|pre|] == pre;
  }

  lemma GatherAt<S, T>(xs: seq<S>, n: nat, g: S -> seq<T>)
    requires n < |xs|
    ensures Gather(xs, g) == Gather(xs[..n], g) + g(xs[n]) + Gather(xs[n + 1..], g)
  {
    Totals.Parted(xs, n);
    GatherAround(xs[..n], xs[n], xs[n + 1..], g);
  }

  lemma MiddleOut<T>(a: seq<T>, b: seq<T>, c: seq<T>)
    ensures multiset(a + b + c) == multiset(a + c) + multiset(b)
  {
  }

  lemma GatherRemove<S, T>(xs: seq<S>, k: nat, g: S -> seq<T>)
    requires k < |xs|
    ensures multiset(Gather(xs, g)) == multiset(Gather(xs[..k] + xs[k + 1..], g)) + multiset(g(xs[k]))
  {
    GatherAt(xs, k, g);
    GatherConcat(xs[..k], xs[k + 1..], g);
    MiddleOut(Gather(xs[..k], g), g(xs[k]), Gather(xs[k + 1..], g));
  }

  lemma {:induction false} GatherPermute<S, T>(xs: seq<S>, ys: seq<S>, g: S -> seq<T>)
    requires multiset(xs) == multiset(ys)
    ensures multiset(Gather(xs, g)) == multiset(Gather(ys, g))
    decreases |xs|
  {
    if xs == [] {
      assert |multiset(ys)| == 0;
    } else {
      var k := Totals.LastIn(xs, ys);
      GatherPermute(xs[..|xs| - 1], ys[..k] + ys[k + 1..], g);
      GatherRemove(ys, k, g);
    }
  }

  lemma {:induction false} GatherEmpty<S, T>(xs: seq<S>, g: S -> seq<T>)
    ensures Gather(xs, g) == [] <==> forall x :: x in xs ==> g(x) == []
  {
    if xs != [] {
      var ys := xs[..|xs| - 1];
      GatherEmpty(ys, g);
      assert xs == ys + [xs[|xs| - 1]];
    }
  }

  lemma {:induction false} GatherSame<S, T>(xs: seq<S>, f: S -> seq<T>, g: S -> seq<T>)
    requires forall i :: 0 <= i < |xs| ==> multiset(f(xs[i])) == multiset(g(xs[i]))
    ensures multiset(Gather(xs, f)) == multiset(Gather(xs, g))
  {
    if xs != [] {
      GatherSame(xs[..|xs| - 1], f, g);
    }
  }

  lemma SameMembers<T>(xs: seq<T>, ys: seq<T>)
    requires multiset(xs) == multiset(ys)
    ensures |xs| == |ys| && forall x :: x in xs <==> x in ys
  {
    assert |multiset(xs)| == |xs| && |multiset(ys)| == |ys|;
    forall x
      ensures x in xs <==> x in ys
    {
      assert x in xs <==> x in multiset(xs);
      assert x in ys <==> x in multiset(ys);
    }
  }
}
