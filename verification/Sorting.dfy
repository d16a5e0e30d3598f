/** Sorting by an integer key, as the library sorts the program calls. */
module Sorting {

  ghost predicate SortedBy<T>(xs: seq<T>, key: T -> int) {
    forall i, j :: 0 <= i < j < |xs| ==> key(xs[i]) <= key(xs[j])
  }

  ghost predicate StrictlySortedBy<T>(xs: seq<T>, key: T -> int) {
    forall i, j :: 0 <= i < j < |xs| ==> key(xs[i]) < key(xs[j])
  }

  ghost predicate Distinct<T>(xs: seq<T>) {
    forall i, j :: 0 <= i < j < |xs| ==> xs[i] != xs[j]
  }

  method SortBy<T(==)>(xs: seq<T>, key: T -> int) returns (ys: seq<T>)
    ensures SortedBy(ys, key)
    ensures multiset(ys) == multiset(xs)
  {
    ys := [];
    for i := 0 to |xs|
      invariant SortedBy(ys, key)
      invariant multiset(ys) == multiset(xs[..i])
    {
      assert xs[..i + 1] == xs[..i] + [xs[i]];
      ys := Insert(ys, xs[i], key);
    }
    assert xs[..|xs|] == xs;
  }

  method Insert<T(==)>(xs: seq<T>, x: T, key: T -> int) returns (ys: seq<T>)
    requires SortedBy(xs, key)
    ensures SortedBy(ys, key)
    ensures multiset(ys) == multiset(xs) + multiset{x}
  {
    var n := |xs|;
    while n > 0 && key(xs[n - 1]) > key(x)
      invariant 0 <= n <= |xs|
      invariant forall j :: n <= j < |xs| ==> key(x) < key(xs[j])
    {
      n := n - 1;
    }
    ys := xs[..n] + [x] + xs[n..];
    InsertedAt(xs, x, n);
  }

  lemma InsertedAt<T>(xs: seq<T>, x: T, n: nat)
    requires n <= |xs|
    ensures multiset(xs[..n] + [x] + xs[n..]) == multiset(xs) + multiset{x}
  {
    assert xs == xs[..n] + xs[n..];
  }

  /** Equal multisets hold equal elements, each as often. */
  lemma SameElements<T>(xs: seq<T>, ys: seq<T>)
    requires multiset(xs) == multiset(ys)
    ensures |xs| == |ys|
    ensures forall x :: x in xs <==> x in ys
  {
    assert |multiset(xs)| == |xs| && |multiset(ys)| == |ys|;
    forall x ensures x in xs <==> x in ys {
      assert x in xs <==> x in multiset(xs);
      assert x in ys <==> x in multiset(ys);
    }
  }

  lemma {:induction false} CountOnce<T>(xs: seq<T>, x: T)
    requires Distinct(xs)
    ensures multiset(xs)[x] <= 1
  {
    if xs != [] {
      var n := |xs| - 1;
      assert xs == xs[..n] + [xs[n]];
      CountOnce(xs[..n], x);
      if x == xs[n] {
        assert x !in xs[..n];
        assert x !in multiset(xs[..n]);
      }
    }
  }

  lemma TwicePlus<T>(xs: seq<T>, i: nat, j: nat)
    requires i < j < |xs| && xs[i] == xs[j]
    ensures multiset(xs)[xs[i]] >= 2
  {
    assert xs == xs[..i] + [xs[i]] + xs[i + 1..j] + [xs[j]] + xs[j + 1..];
  }

  lemma DistinctAppend<T>(xs: seq<T>, ys: seq<T>)
    requires Distinct(xs) && Distinct(ys) && forall x :: x in xs ==> x !in ys
    ensures Distinct(xs + ys)
  {
    forall i, j | 0 <= i < j < |xs + ys| ensures (xs + ys)[i] != (xs + ys)[j] {
      if i < |xs| <= j {
        assert xs[i] in xs && ys[j - |xs|] in ys;
      }
    }
  }

  /** A permutation of distinct elements is distinct. */
  lemma DistinctPermutation<T>(xs: seq<T>, ys: seq<T>)
    requires multiset(xs) == multiset(ys) && Distinct(xs)
    ensures Distinct(ys)
  {
    forall i, j | 0 <= i < j < |ys| ensures ys[i] != ys[j] {
      CountOnce(xs, ys[i]);
      if ys[i] == ys[j] {
        TwicePlus(ys, i, j);
      }
    }
  }

  /** Sorted and distinct with an injective key means strictly sorted. */
  lemma SortedStrict<T>(ys: seq<T>, key: T -> int)
    requires SortedBy(ys, key) && Distinct(ys)
    requires forall i, j :: 0 <= i < j < |ys| && key(ys[i]) == key(ys[j]) ==> ys[i] == ys[j]
    ensures StrictlySortedBy(ys, key)
  {
  }

  /** The elements of a set, in some order. */
  method Listed<T(==)>(ts: set<T>) returns (xs: seq<T>)
    ensures Distinct(xs) && forall t :: t in xs <==> t in ts
  {
    xs := [];
    var todo := ts;
    while todo != {}
      invariant todo <= ts && Distinct(xs)
      invariant forall t :: t in xs <==> t in ts - todo
      decreases todo
    {
      var t :| t in todo;
      assert t !in xs;
      xs := xs + [t];
      todo := todo - {t};
    }
  }

  lemma {:induction false} SubsetSize<T>(a: set<T>, b: set<T>)
    requires a <= b
    ensures |a| <= |b|
  {
    if a != {} {
      var x :| x in a;
      SubsetSize(a - {x}, b - {x});
    }
  }
}
