/** Sums of a measure over the elements of a sequence. */
module Sums {

  function Sum<T>(f: T -> nat, xs: seq<T>): nat {
    if xs == [] then 0 else f(xs[0]) + Sum(f, xs[1..])
  }

  lemma {:induction false} SumConcat<T>(f: T -> nat, xs: seq<T>, ys: seq<T>)
    ensures Sum(f, xs + ys) == Sum(f, xs) + Sum(f, ys)
  {
    if xs == [] {
      assert xs + ys == ys;
    } else {
      SumConcat(f, xs[1..], ys);
      assert (xs + ys)[1..] == xs[1..] + ys;
    }
  }

  lemma SumAppend<T>(f: T -> nat, xs: seq<T>, x: T)
    ensures Sum(f, xs + [x]) == Sum(f, xs) + f(x)
  {
    SumConcat(f, xs, [x]);
    assert [x][1..] == [];
  }

  lemma SumUpdate<T>(f: T -> nat, xs: seq<T>, k: nat, x: T)
    requires k < |xs|
    ensures Sum(f, xs[k := x]) + f(xs[k]) == Sum(f, xs) + f(x)
  {
    var rest := xs[k + 1..];
    assert xs == xs[..k] + ([xs[k]] + rest);
    assert xs[k := x] == xs[..k] + ([x] + rest);
    SumConcat(f, xs[..k], [xs[k]] + rest);
    SumConcat(f, xs[..k], [x] + rest);
    assert ([xs[k]] + rest)[1..] == rest && ([x] + rest)[1..] == rest;
  }

  lemma {:induction false} SumRemove<T>(f: T -> nat, xs: seq<T>, k: nat)
    requires k < |xs|
    ensures Sum(f, xs) == f(xs[k]) + Sum(f, xs[..k] + xs[k + 1..])
  {
    var rest := xs[k + 1..];
    assert xs == xs[..k] + ([xs[k]] + rest);
    SumConcat(f, xs[..k], [xs[k]] + rest);
    SumConcat(f, xs[..k], rest);
    assert ([xs[k]] + rest)[1..] == rest;
  }

  lemma Removed<T>(xs: seq<T>, k: nat)
    requires k < |xs|
    ensures multiset(xs[..k] + xs[k + 1..]) == multiset(xs) - multiset{xs[k]}
  {
    assert xs == xs[..k] + [xs[k]] + xs[k + 1..];
  }

  /** The first item, found in another order; what is left are the same items. */
  lemma Found<T>(xs: seq<T>, ys: seq<T>) returns (k: nat)
    requires xs != [] && multiset(xs) == multiset(ys)
    ensures k < |ys| && ys[k] == xs[0]
    ensures multiset(xs[1..]) == multiset(ys[..k] + ys[k + 1..])
  {
    assert xs[0] in multiset(ys);
    k :| 0 <= k < |ys| && ys[k] == xs[0];
    FirstRemoved(xs);
    Removed(ys, k);
  }

  lemma FirstRemoved<T>(xs: seq<T>)
    requires xs != []
    ensures multiset(xs[1..]) == multiset(xs) - multiset{xs[0]}
  {
    assert xs == [xs[0]] + xs[1..];
  }

  /** A sum does not depend on the order. */
  lemma {:induction false} SumPermuted<T>(f: T -> nat, xs: seq<T>, ys: seq<T>)
    requires multiset(xs) == multiset(ys)
    ensures Sum(f, xs) == Sum(f, ys)
  {
    if xs == [] {
      assert |multiset(ys)| == 0;
    } else {
      var k := Found(xs, ys);
      SumRemove(f, ys, k);
      SumPermuted(f, xs[1..], ys[..k] + ys[k + 1..]);
    }
  }

  /** A sum reaches the length only if every element contributes, when each contributes at most one. */
  lemma {:induction false} SumFull<T>(f: T -> nat, xs: seq<T>)
    requires forall k :: 0 <= k < |xs| ==> f(xs[k]) <= 1
    ensures Sum(f, xs) <= |xs|
    ensures Sum(f, xs) == |xs| ==> forall k :: 0 <= k < |xs| ==> f(xs[k]) == 1
    ensures Sum(f, xs) < |xs| ==> exists k :: 0 <= k < |xs| && f(xs[k]) == 0
  {
    if xs != [] {
      SumFull(f, xs[1..]);
      if Sum(f, xs) == |xs| {
        forall k | 0 <= k < |xs| ensures f(xs[k]) == 1 {
          if k > 0 { assert xs[k] == xs[1..][k - 1]; }
        }
      } else if f(xs[0]) == 1 {
        var k :| 0 <= k < |xs[1..]| && f(xs[1..][k]) == 0;
        assert f(xs[k + 1]) == 0;
      }
    }
  }

  /** The same for bags. */
  ghost function Bag<T, I>(f: T -> multiset<I>, xs: seq<T>): multiset<I> {
    if xs == [] then multiset{} else f(xs[0]) + Bag(f, xs[1..])
  }

  lemma {:induction false} BagConcat<T, I>(f: T -> multiset<I>, xs: seq<T>, ys: seq<T>)
    ensures Bag(f, xs + ys) == Bag(f, xs) + Bag(f, ys)
  {
    if xs == [] {
      assert xs + ys == ys;
    } else {
      BagConcat(f, xs[1..], ys);
      assert (xs + ys)[1..] == xs[1..] + ys;
    }
  }

  lemma BagAppend<T, I>(f: T -> multiset<I>, xs: seq<T>, x: T)
    ensures Bag(f, xs + [x]) == Bag(f, xs) + f(x)
  {
    BagConcat(f, xs, [x]);
    assert [x][1..] == [];
  }

  lemma BagUpdate<T, I>(f: T -> multiset<I>, xs: seq<T>, k: nat, x: T)
    requires k < |xs|
    ensures Bag(f, xs[k := x]) + f(xs[k]) == Bag(f, xs) + f(x)
  {
    var rest := xs[k + 1..];
    assert xs == xs[..k] + ([xs[k]] + rest);
    assert xs[k := x] == xs[..k] + ([x] + rest);
    BagConcat(f, xs[..k], [xs[k]] + rest);
    BagConcat(f, xs[..k], [x] + rest);
    assert ([xs[k]] + rest)[1..] == rest && ([x] + rest)[1..] == rest;
  }

  /** Replacing an element by one that stands for less leaves exactly the difference. */
  lemma BagReplace<T, I>(f: T -> multiset<I>, xs: seq<T>, k: nat, x: T, less: multiset<I>)
    requires k < |xs| && f(x) + less == f(xs[k])
    ensures Bag(f, xs[k := x]) + less == Bag(f, xs)
  {
    BagUpdate(f, xs, k, x);
    CancelCommon(Bag(f, xs[k := x]) + less, Bag(f, xs), f(x));
  }

  lemma CancelCommon<I>(a: multiset<I>, b: multiset<I>, x: multiset<I>)
    requires a + x == b + x
    ensures a == b
  {
    assert a == (a + x) - x;
    assert b == (b + x) - x;
  }

  /** The other direction: an element that stands for more. */
  lemma BagGrow<T, I>(f: T -> multiset<I>, xs: seq<T>, k: nat, x: T, more: multiset<I>)
    requires k < |xs| && f(x) == f(xs[k]) + more
    ensures Bag(f, xs[k := x]) == Bag(f, xs) + more
  {
    BagUpdate(f, xs, k, x);
    CancelCommon(Bag(f, xs[k := x]), Bag(f, xs) + more, f(xs[k]));
  }

  lemma {:induction false} BagEmpty<T, I>(f: T -> multiset<I>, xs: seq<T>)
    requires forall k :: 0 <= k < |xs| ==> f(xs[k]) == multiset{}
    ensures Bag(f, xs) == multiset{}
  {
    if xs != [] {
      BagEmpty(f, xs[1..]);
    }
  }
}
