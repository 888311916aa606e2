/**
 Bags and sums over sequences.  The protocol models keep tables and task sets as
 sequences; their conservation laws are equations between the bags below.
 */
module Folds {

  /** The sequence without its i-th element. */
  function Remove<T>(xs: seq<T>, i: nat): seq<T>
    requires i < |xs|
  {
    xs[..i] + xs[i + 1..]
  }

  /** The multiset of the images of the elements. */
  function Bag<T, U>(xs: seq<T>, f: T -> U): multiset<U> {
    if xs == [] then multiset{} else multiset{f(xs[0])} + Bag(xs[1..], f)
  }

  /** The sum of the weights of the elements. */
  function Sum<T>(xs: seq<T>, f: T -> nat): nat {
    if xs == [] then 0 else f(xs[0]) + Sum(xs[1..], f)
  }

  lemma {:induction false} BagConcat<T, U>(xs: seq<T>, ys: seq<T>, f: T -> U)
    ensures Bag(xs + ys, f) == Bag(xs, f) + Bag(ys, f)
  {
    if xs == [] {
      assert xs + ys == ys;
    } else {
      assert (xs + ys)[1..] == xs[1..] + ys;
      BagConcat(xs[1..], ys, f);
    }
  }

  lemma {:induction false} SumConcat<T>(xs: seq<T>, ys: seq<T>, f: T -> nat)
    ensures Sum(xs + ys, f) == Sum(xs, f) + Sum(ys, f)
  {
    if xs == [] {
      assert xs + ys == ys;
    } else {
      assert (xs + ys)[1..] == xs[1..] + ys;
      SumConcat(xs[1..], ys, f);
    }
  }

  lemma BagOne<T, U>(x: T, f: T -> U)
    ensures Bag([x], f) == multiset{f(x)}
  {
  }

  lemma SumOne<T>(x: T, f: T -> nat)
    ensures Sum([x], f) == f(x)
  {
  }

  lemma BagAppend<T, U>(xs: seq<T>, x: T, f: T -> U)
    ensures Bag(xs + [x], f) == Bag(xs, f) + multiset{f(x)}
  {
    BagConcat(xs, [x], f);
    BagOne(x, f);
  }

  lemma SumAppend<T>(xs: seq<T>, x: T, f: T -> nat)
    ensures Sum(xs + [x], f) == Sum(xs, f) + f(x)
  {
    SumConcat(xs, [x], f);
    SumOne(x, f);
  }

  lemma BagRemove<T, U>(xs: seq<T>, i: nat, f: T -> U)
    requires i < |xs|
    ensures Bag(xs, f) == Bag(Remove(xs, i), f) + multiset{f(xs[i])}
  {
    var front, back := xs[..i], xs[i + 1..];
    assert xs == front + xs[i..] && xs[i..][1..] == back;
    BagConcat(front, xs[i..], f);
    BagConcat(front, back, f);
  }

  lemma SumRemove<T>(xs: seq<T>, i: nat, f: T -> nat)
    requires i < |xs|
    ensures Sum(xs, f) == Sum(Remove(xs, i), f) + f(xs[i])
  {
    var front, back := xs[..i], xs[i + 1..];
    assert xs == front + xs[i..] && xs[i..][1..] == back;
    SumConcat(front, xs[i..], f);
    SumConcat(front, back, f);
  }

  lemma BagUpdate<T, U>(xs: seq<T>, i: nat, x: T, f: T -> U)
    requires i < |xs|
    ensures Bag(xs[i := x], f) + multiset{f(xs[i])} == Bag(xs, f) + multiset{f(x)}
  {
    BagRemove(xs, i, f);
    BagRemove(xs[i := x], i, f);
    assert Remove(xs[i := x], i) == Remove(xs, i);
  }

  lemma SumUpdate<T>(xs: seq<T>, i: nat, x: T, f: T -> nat)
    requires i < |xs|
    ensures Sum(xs[i := x], f) + f(xs[i]) == Sum(xs, f) + f(x)
  {
    SumRemove(xs, i, f);
    SumRemove(xs[i := x], i, f);
    assert Remove(xs[i := x], i) == Remove(xs, i);
  }

  lemma BagMember<T, U>(xs: seq<T>, i: nat, f: T -> U)
    requires i < |xs|
    ensures f(xs[i]) in Bag(xs, f)
  {
    BagRemove(xs, i, f);
  }

  lemma {:induction false} BagSize<T, U>(xs: seq<T>, f: T -> U)
    ensures |Bag(xs, f)| == |xs|
  {
    if xs != [] {
      BagSize(xs[1..], f);
    }
  }
}
