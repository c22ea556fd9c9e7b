// sort.Slice: some ordering of the same
// elements, ascending by key. Nothing is
// promised about the order of elements
// with equal keys, so that what is proved
// holds for every order of ties.
module Sorting {
  ghost predicate Ascending<T>(xs: seq<T>, key: T -> int) {
    forall i, j :: 0 <= i < j < |xs| ==> key(xs[i]) <= key(xs[j])
  }

  method SortByKey<T>(xs: seq<T>, key: T -> int) returns (ys: seq<T>)
    ensures multiset(ys) == multiset(xs)
    ensures Ascending(ys, key)
  {
    ys := [];
    for n := 0 to |xs|
      invariant multiset(ys) == multiset(xs[..n])
      invariant Ascending(ys, key)
    {
      ys := Insert(ys, xs[n], key);
      assert xs[..n + 1] == xs[..n] + [xs[n]];
    }
    assert xs[..|xs|] == xs;
  }

  method Insert<T>(ys: seq<T>, x: T, key: T -> int) returns (zs: seq<T>)
    requires Ascending(ys, key)
    ensures multiset(zs) == multiset(ys) + multiset{x}
    ensures Ascending(zs, key)
  {
    var at := |ys|;
    while at > 0 && key(x) < key(ys[at - 1])
      invariant 0 <= at <= |ys|
      invariant at < |ys| ==> key(x) < key(ys[at])
    {
      at := at - 1;
    }
    zs := ys[..at] + [x] + ys[at..];
    SpliceContents(ys, at, x);
  }

  lemma SpliceContents<T>(ys: seq<T>, at: nat, x: T)
    requires at <= |ys|
    ensures multiset(ys[..at] + [x] + ys[at..]) == multiset(ys) + multiset{x}
  {
    assert ys == ys[..at] + ys[at..];
  }

  // What a permutation keeps: the length and which elements occur.
  lemma PermutationFacts<T>(xs: seq<T>, ys: seq<T>)
    requires multiset(xs) == multiset(ys)
    ensures |xs| == |ys|
    ensures forall x :: x in xs <==> x in ys
  {
    assert |multiset(xs)| == |multiset(ys)|;
    forall x
      ensures x in xs <==> x in ys
    {
      assert x in xs <==> x in multiset(xs);
      assert x in ys <==> x in multiset(ys);
    }
  }

  ghost predicate NoRepeats<T>(xs: seq<T>) {
    forall i, j :: 0 <= i < j < |xs| ==> xs[i] != xs[j]
  }
}
