/** The few sequence folds the log is described with, and how they distribute over concatenation. */
module Sequences {

  function FlatMap<A, B>(xs: seq<A>, f: A -> seq<B>): seq<B> {
    if xs == [] then [] else FlatMap(xs[..|xs| - 1], f) + f(xs[|xs| - 1])
  }

  lemma {:induction false} FlatMapConcat<A, B>(xs: seq<A>, ys: seq<A>, f: A -> seq<B>)
    ensures FlatMap(xs + ys, f) == FlatMap(xs, f) + FlatMap(ys, f)
  {
    if ys == [] {
      assert xs + ys == xs;
    } else {
      var front := ys[..|ys| - 1];
      assert (xs + ys)[..|xs + ys| - 1] == xs + front;
      FlatMapConcat(xs, front, f);
    }
  }

  lemma {:induction false} Unsnoc<T>(xs: seq<T>, ys: seq<T>)
    requires ys != []
    ensures xs + ys == xs + ys[..|ys| - 1] + [ys[|ys| - 1]]
  {
  }

  lemma {:induction false} SplitAt<T>(xs: seq<T>, ys: seq<T>, n: nat)
    requires n <= |ys|
    ensures xs + ys[..n] + ys[n..] == xs + ys
  {
  }

  lemma {:induction false} FlatMapSnoc<A, B>(xs: seq<A>, x: A, f: A -> seq<B>)
    ensures FlatMap(xs + [x], f) == FlatMap(xs, f) + f(x)
  {
    assert (xs + [x])[..|xs|] == xs;
  }

  lemma {:induction false} FlatMapOne<A, B>(x: A, f: A -> seq<B>)
    ensures FlatMap([x], f) == f(x)
  {
    assert [x][..0] == [];
  }

  lemma {:induction false} FlatMapMember<A, B>(xs: seq<A>, f: A -> seq<B>, y: B)
    ensures y in FlatMap(xs, f) <==> exists x :: x in xs && y in f(x)
  {
    if xs != [] {
      var front, last := xs[..|xs| - 1], xs[|xs| - 1];
      FlatMapMember(front, f, y);
      assert xs == front + [last];
    }
  }

  /** When `f` keeps one result per element, the flat map is the pointwise map. */
  lemma {:induction false} FlatMapPointwise<A, B>(xs: seq<A>, f: A -> seq<B>, ys: seq<B>)
    requires |xs| == |ys| && forall i :: 0 <= i < |xs| ==> f(xs[i]) == [ys[i]]
    ensures FlatMap(xs, f) == ys
  {
    if xs != [] {
      FlatMapPointwise(xs[..|xs| - 1], f, ys[..|ys| - 1]);
    }
  }

  lemma {:induction false} FlatMapEmpty<A, B>(xs: seq<A>, f: A -> seq<B>)
    requires forall i :: 0 <= i < |xs| ==> f(xs[i]) == []
    ensures FlatMap(xs, f) == []
  {
    if xs != [] { FlatMapEmpty(xs[..|xs| - 1], f); }
  }

  /** The first `n` elements, or all of them. */
  function Take<T>(xs: seq<T>, n: nat): seq<T> {
    if n < |xs| then xs[..n] else xs
  }

  function Max(a: int, b: int): int {
    if a < b then b else a
  }

  /** The largest of `base` and every element. */
  function Highest(xs: seq<int>, base: int): (h: int)
    ensures h >= base && (h == base || h in xs) && forall x :: x in xs ==> x <= h
  {
    if xs == [] then base
    else
      var front, last := xs[..|xs| - 1], xs[|xs| - 1];
      assert xs == front + [last];
      Max(Highest(front, base), last)
  }

  lemma {:induction false} HighestConcat(xs: seq<int>, ys: seq<int>, base: int)
    ensures Highest(xs + ys, base) == Highest(ys, Highest(xs, base))
  {
    var h, k := Highest(xs, base), Highest(ys, Highest(xs, base));
    assert forall x :: x in xs + ys <==> x in xs || x in ys;
  }
}
