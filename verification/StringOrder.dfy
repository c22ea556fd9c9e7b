// sort.Strings: lexicographic order,
// which unlike a sort by key leaves no
// choice: a sorted sequence without
// repeats is determined by its members.
// It orders the roles of a pairing.
module StringOrder {
  import opened Sorting

  predicate Precedes(a: string, b: string) {
    b != [] && (a == [] || a[0] < b[0] || (a[0] == b[0] && Precedes(a[1..], b[1..])))
  }

  lemma {:induction false} PrecedesTotal(a: string, b: string)
    ensures Precedes(a, b) || Precedes(b, a) || a == b
    ensures !(Precedes(a, b) && Precedes(b, a)) && (a == b ==> !Precedes(a, b))
  {
    if a != [] && b != [] && a[0] == b[0] {
      PrecedesTotal(a[1..], b[1..]);
      assert a == [a[0]] + a[1..] && b == [b[0]] + b[1..];
    }
  }

  lemma {:induction false} PrecedesTransitive(a: string, b: string, c: string)
    requires Precedes(a, b) && Precedes(b, c)
    ensures Precedes(a, c)
  {
    if a != [] && a[0] == b[0] == c[0] {
      PrecedesTransitive(a[1..], b[1..], c[1..]);
    }
  }

  ghost predicate Sorted(xs: seq<string>) {
    forall i, j :: 0 <= i < j < |xs| ==> Precedes(xs[i], xs[j])
  }

  // A sorted sequence is determined by its members.
  lemma {:induction false} SortedUnique(xs: seq<string>, ys: seq<string>)
    requires Sorted(xs) && Sorted(ys) && forall x :: x in xs <==> x in ys
    ensures xs == ys
  {
    assert ys != [] ==> ys[0] in ys;
    if xs != [] {
      assert xs[0] in ys;
      var k :| 0 <= k < |ys| && ys[k] == xs[0];
      assert ys[0] in xs;
      var l :| 0 <= l < |xs| && xs[l] == ys[0];
      PrecedesTotal(xs[0], ys[0]);
      assert xs[0] == ys[0];
      forall x
        ensures x in xs[1..] <==> x in ys[1..]
      {
        PrecedesTotal(x, x);
        assert x in xs <==> x == xs[0] || x in xs[1..];
        assert x in ys <==> x == ys[0] || x in ys[1..];
      }
      SortedUnique(xs[1..], ys[1..]);
      assert xs == [xs[0]] + xs[1..] && ys == [ys[0]] + ys[1..];
    }
  }

  method InsertString(xs: seq<string>, x: string) returns (ys: seq<string>)
    requires Sorted(xs) && x !in xs
    ensures Sorted(ys) && forall y :: y in ys <==> y in xs || y == x
  {
    var at := 0;
    while at < |xs| && Precedes(xs[at], x)
      invariant 0 <= at <= |xs|
      invariant forall i :: 0 <= i < at ==> Precedes(xs[i], x)
    {
      at := at + 1;
    }
    ys := xs[..at] + [x] + xs[at..];
    InsertedIsSorted(xs, at, x);
  }

  lemma InsertedIsSorted(xs: seq<string>, at: nat, x: string)
    requires Sorted(xs) && x !in xs && at <= |xs|
    requires forall i :: 0 <= i < at ==> Precedes(xs[i], x)
    requires at < |xs| ==> !Precedes(xs[at], x)
    ensures Sorted(xs[..at] + [x] + xs[at..])
  {
    var ys := xs[..at] + [x] + xs[at..];
    forall i, j | 0 <= i < j < |ys|
      ensures Precedes(ys[i], ys[j])
    {
      if i == at {
        PrecedesTotal(x, xs[at]);
        if j > at + 1 {
          assert Precedes(xs[at], xs[j - 1]);
          PrecedesTransitive(x, xs[at], xs[j - 1]);
        }
      } else if j == at {
        assert ys[i] == xs[i];
      } else {
        var k, l := if i < at then i else i - 1, if j < at then j else j - 1;
        assert ys[i] == xs[k] && ys[j] == xs[l];
      }
    }
  }

  method SortStrings(xs: seq<string>) returns (ys: seq<string>)
    requires NoRepeats(xs)
    ensures Sorted(ys) && forall y :: y in ys <==> y in xs
  {
    ys := [];
    for n := 0 to |xs|
      invariant Sorted(ys) && forall y :: y in ys <==> y in xs[..n]
    {
      assert xs[..n + 1] == xs[..n] + [xs[n]];
      ys := InsertString(ys, xs[n]);
    }
    assert xs[..|xs|] == xs;
  }
}
