// Names of the pod-level claims made for intercepted resources.
module ClaimNames {
  import opened Sorting
  import opened Text

  function EscapeClaim(name: string): (e: string)
    ensures |e| == |name|
    ensures forall i :: 0 <= i < |name| ==> e[i] == if name[i] == '/' || name[i] == '.' then '-' else name[i]
  {
    seq(|name|, i requires 0 <= i < |name| => if name[i] == '/' || name[i] == '.' then '-' else name[i])
  }

  // escapeClaimName
  method EscapeClaimName(name: string) returns (result: string)
    ensures result == EscapeClaim(name)
  {
    result := "";
    for i := 0 to |name|
      invariant result == EscapeClaim(name[..i])
    {
      assert name[..i + 1] == name[..i] + [name[i]];
      if name[i] == '/' || name[i] == '.' {
        result := result + ['-'];
      } else {
        result := result + [name[i]];
      }
    }
    assert name[..|name|] == name;
  }

  function Base(escaped: string, i: nat): string {
    "ext-" + escaped + "-" + Decimal(i)
  }

  // The base name with k times "-x" appended
  function Suffixed(base: string, k: nat): string {
    if k == 0 then base else Suffixed(base, k - 1) + "-x"
  }

  // The first of base, base-x, base-x-x, ... that is not taken
  ghost predicate FirstFree(taken: set<string>, base: string, name: string) {
    exists k: nat ::
      name == Suffixed(base, k) && name !in taken && forall j: nat :: j < k ==> Suffixed(base, j) in taken
  }

  // The collision loop. Each round lengthens the name past one taken name, so
  // it ends.
  method AvoidCollision(taken: set<string>, base: string) returns (name: string)
    ensures FirstFree(taken, base, name)
  {
    name := base;
    ghost var k: nat := 0;
    ghost var ahead := set t | t in taken && |t| >= |name|;
    while name in taken
      invariant name == Suffixed(base, k)
      invariant forall j: nat :: j < k ==> Suffixed(base, j) in taken
      invariant ahead == set t | t in taken && |t| >= |name|
      decreases ahead
    {
      assert name in ahead;
      name := name + "-x";
      k := k + 1;
      ahead := set t | t in taken && |t| >= |name|;
    }
  }

  // Names for count claims of one resource: claim i takes the first free name
  // from its base, given the pod's claims and the names of the claims before it.
  ghost predicate Named(existing: set<string>, resource: string, names: seq<string>) {
    forall i :: 0 <= i < |names| ==>
      FirstFree(existing + Members(names[..i]), Base(EscapeClaim(resource), i), names[i])
  }

  function Members(names: seq<string>): set<string> {
    set n | n in names
  }

  method NameClaims(existing: set<string>, resource: string, count: nat) returns (names: seq<string>)
    ensures |names| == count && Named(existing, resource, names)
  {
    var taken := existing;
    names := [];
    for i := 0 to count
      invariant |names| == i && Named(existing, resource, names)
      invariant taken == existing + Members(names)
    {
      var escaped := EscapeClaimName(resource);
      var name := AvoidCollision(taken, Base(escaped, i));
      ghost var before := names;
      names := names + [name];
      taken := taken + {name};
      assert names[..i] == before;
      assert forall k :: 0 <= k < i ==> names[..k] == before[..k];
    }
  }

  // New names are none of the pod's own, and differ from each other.
  lemma NamesAreFresh(existing: set<string>, resource: string, names: seq<string>)
    requires Named(existing, resource, names)
    ensures NoRepeats(names)
    ensures forall n :: n in names ==> n !in existing
  {
    forall i, j | 0 <= i < j < |names|
      ensures names[i] != names[j]
    {
      assert names[..j][i] in names[..j];
    }
  }

  // ---- names of different resources -----------------------------------------

  // A claim name determines the escaped resource, the index and the number of
  // suffixes it was made from.
  lemma {:induction false} NameDecodes(e1: string, i: nat, k: nat, e2: string, j: nat, m: nat)
    requires Suffixed(Base(e1, i), k) == Suffixed(Base(e2, j), m)
    ensures e1 == e2 && i == j && k == m
  {
    if k > 0 && m > 0 {
      var a, b := Suffixed(Base(e1, i), k - 1), Suffixed(Base(e2, j), m - 1);
      assert (a + "-x")[..|a|] == a && (b + "-x")[..|b|] == b;
      NameDecodes(e1, i, k - 1, e2, j, m - 1);
    } else if k == 0 && m == 0 {
      BaseDecodes(e1, i, e2, j);
    } else if k == 0 {
      LastChar(e1, i, Suffixed(Base(e2, j), m - 1));
    } else {
      LastChar(e2, j, Suffixed(Base(e1, i), k - 1));
    }
  }

  lemma LastChar(escaped: string, i: nat, shorter: string)
    ensures Base(escaped, i) != shorter + "-x"
  {
    var b := Base(escaped, i);
    assert b[|b| - 1] == Decimal(i)[|Decimal(i)| - 1];
    assert Decimal(i)[|Decimal(i)| - 1] in Decimal(i);
    assert (shorter + "-x")[|shorter| + 1] == 'x';
  }

  lemma BaseDecodes(e1: string, i: nat, e2: string, j: nat)
    requires Base(e1, i) == Base(e2, j)
    ensures e1 == e2 && i == j
  {
    var b, d1, d2 := Base(e1, i), Decimal(i), Decimal(j);
    DigitsAfterDash(e1, i);
    DigitsAfterDash(e2, j);
    assert |d1| == |d2|;
    assert d1 == b[|b| - |d1|..] && d2 == b[|b| - |d2|..];
    DecimalInjective(i, j);
    assert e1 == b[4..|b| - |d1| - 1] && e2 == b[4..|b| - |d2| - 1];
  }

  // Counted from the end, a dash stands right before the digits and not among
  // them.
  lemma DigitsAfterDash(escaped: string, i: nat)
    ensures var b, d := Base(escaped, i), Decimal(i);
      && b[|b| - |d| - 1] == '-'
      && forall n :: |b| - |d| <= n < |b| ==> b[n] != '-'
  {
    var b, d := Base(escaped, i), Decimal(i);
    forall n | |b| - |d| <= n < |b|
      ensures b[n] != '-'
    {
      assert b[n] == d[n - (|b| - |d|)];
      assert d[n - (|b| - |d|)] in d;
    }
  }

  ghost predicate Disjoint(a: seq<string>, b: seq<string>) {
    forall x :: x in a ==> x !in b
  }

  // The claims of two resources never share a name exactly when the resources
  // escape differently: names are checked against the pod's own claims only,
  // not against those made for another resource.
  lemma ResourcesShareNoName(existing: set<string>, r1: string, names1: seq<string>, r2: string, names2: seq<string>)
    requires Named(existing, r1, names1) && Named(existing, r2, names2)
    requires names1 != [] && names2 != []
    ensures Disjoint(names1, names2) <==> EscapeClaim(r1) != EscapeClaim(r2)
  {
    if EscapeClaim(r1) == EscapeClaim(r2) {
      assert names1[..0] == [] && names2[..0] == [];
      assert names1[0] in names1 && names1[0] in names2;
    } else {
      forall x | x in names1
        ensures x !in names2
      {
        if x in names2 {
          var i :| 0 <= i < |names1| && names1[i] == x;
          var j :| 0 <= j < |names2| && names2[j] == x;
          var k: nat :| x == Suffixed(Base(EscapeClaim(r1), i), k);
          var m: nat :| x == Suffixed(Base(EscapeClaim(r2), j), m);
          NameDecodes(EscapeClaim(r1), i, k, EscapeClaim(r2), j, m);
        }
      }
    }
  }

  // Two resources that do collide
  lemma EscapeCollides()
    ensures EscapeClaim("example.com/gpu") == EscapeClaim("example-com/gpu")
  {
    assert "example.com/gpu"[7] == '.' && "example-com/gpu"[7] == '-';
  }
}
