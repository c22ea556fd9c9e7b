// The preflight estimate on InfiniBand:
// devices in use are spread over the NUMA
// zones of a node in proportion to the
// zones' sizes.
module Preflight {
  import opened Basics

  function CountZone(zones: seq<int>, zone: int): nat {
    if zones == [] then 0
    else CountZone(zones[..|zones| - 1], zone) + if zones[|zones| - 1] == zone then 1 else 0
  }

  function ZoneSet(zones: seq<int>): set<int> {
    set z | z in zones
  }

  // Sum of a map's values
  ghost function SumOf(m: map<int, int>): int
    decreases m.Keys
  {
    if !exists k :: k in m then 0
    else
      var k :| k in m;
      m[k] + SumOf(m - {k})
  }

  lemma {:induction false} SumTakes(m: map<int, int>, k: int)
    requires k in m
    ensures SumOf(m) == m[k] + SumOf(m - {k})
    decreases m.Keys
  {
    assert exists c :: c in m;
    var c :| c in m && SumOf(m) == m[c] + SumOf(m - {c});
    if c != k {
      SumTakes(m - {c}, k);
      SumTakes(m - {k}, c);
      assert m - {c} - {k} == m - {k} - {c};
    }
  }

  lemma SumRaises(m: map<int, int>, k: int, v: int)
    requires k in m
    ensures SumOf(m[k := v]) == SumOf(m) - m[k] + v
  {
    SumTakes(m, k);
    SumTakes(m[k := v], k);
    assert m[k := v] - {k} == m - {k};
  }

  // consumed * total / totalRails, and what is left of the zone
  function ZoneAvailable(total: int, consumed: nat, rails: nat): int
    requires rails > 0 && total >= 0
  {
    total - consumed * total / rails
  }

  lemma Quotient(a: nat, b: nat)
    requires b > 0
    ensures b * (a / b) <= a < b * (a / b) + b
    ensures a / b >= 0
  {
  }

  // While the node has a free rail, so does every zone that has any, and no
  // zone gains rails.
  lemma ZoneBounds(total: nat, consumed: nat, rails: nat)
    requires 0 < total && consumed < rails
    ensures 1 <= ZoneAvailable(total, consumed, rails) <= total
  {
    Quotient(consumed * total, rails);
    assert (rails - consumed) * total > 0;
    assert (rails - consumed) * total == rails * total - consumed * total;
  }

  // The number of rails each zone has
  ghost predicate Counts(zones: seq<int>, totals: map<int, int>) {
    && totals.Keys == ZoneSet(zones)
    && forall z :: z in totals ==> totals[z] == CountZone(zones, z)
  }

  lemma {:induction false} CountZonePositive(zones: seq<int>, z: int)
    ensures CountZone(zones, z) > 0 <==> z in ZoneSet(zones)
  {
    if zones != [] {
      CountZonePositive(zones[..|zones| - 1], z);
      assert zones == zones[..|zones| - 1] + [zones[|zones| - 1]];
    }
  }

  lemma CountsStep(zones: seq<int>, z: int, totals: map<int, int>)
    requires Counts(zones, totals)
    ensures Counts(zones + [z], totals[z := 1 + if z in totals then totals[z] else 0])
  {
    CountZonePositive(zones, z);
    assert (zones + [z])[..|zones|] == zones;
  }

  lemma {:induction false} CountsSum(zones: seq<int>, totals: map<int, int>)
    requires Counts(zones, totals)
    ensures SumOf(totals) == |zones|
    decreases |zones|
  {
    if zones != [] {
      var rest, z := zones[..|zones| - 1], zones[|zones| - 1];
      assert zones == rest + [z];
      CountZonePositive(rest, z);
      if totals[z] == 1 {
        CountsSum(rest, totals - {z});
      } else {
        CountsSum(rest, totals[z := totals[z] - 1]);
        SumRaises(totals, z, totals[z] - 1);
      }
      SumTakes(totals, z);
    }
  }

  method CountZones(zones: seq<int>) returns (totals: map<int, int>)
    ensures Counts(zones, totals)
  {
    totals := map[];
    for i := 0 to |zones|
      invariant Counts(zones[..i], totals)
    {
      var z := zones[i];
      CountsStep(zones[..i], z, totals);
      assert zones[..i + 1] == zones[..i] + [z];
      totals := totals[z := 1 + if z in totals then totals[z] else 0];
    }
    assert zones[..|zones|] == zones;
  }

  datatype Availability = Availability(perZone: map<int, int>, total: int)

  // Out of total rails, given are reported; rails times that lies within n
  // roundings of the exact share (rails - consumed) * total.
  ghost predicate Balanced(rails: nat, consumed: nat, total: int, given: int, n: nat) {
    0 <= rails * given - (rails - consumed) * total <= (rails - 1) * n
  }

  lemma ZoneShare(total: nat, consumed: nat, rails: nat)
    requires rails > 0
    ensures Balanced(rails, consumed, total, ZoneAvailable(total, consumed, rails), 1)
  {
    var q := consumed * total / rails;
    Quotient(consumed * total, rails);
    assert rails * (total - q) == rails * total - rails * q;
    assert (rails - consumed) * total == rails * total - consumed * total;
  }

  lemma BalancedAdds(rails: nat, consumed: nat, total: int, given: int, n: nat, t: int, g: int)
    requires Balanced(rails, consumed, total, given, n) && Balanced(rails, consumed, t, g, 1)
    ensures Balanced(rails, consumed, total + t, given + g, n + 1)
  {
    Distribute(rails, given, g);
    Distribute(rails - consumed, total, t);
    Distribute(rails - 1, n, 1);
  }

  lemma Distribute(k: int, a: int, b: int)
    ensures k * (a + b) == k * a + k * b
  {
  }

  // When every zone has its share, the sum is off by less than one rail a zone.
  lemma BalancedBounds(rails: nat, consumed: nat, given: int, n: nat)
    requires Balanced(rails, consumed, rails, given, n)
    requires consumed < rails && n > 0
    ensures rails - consumed <= given <= rails - consumed + n - 1
  {
    assert (rails - consumed) * rails == rails * (rails - consumed);
    Distribute(rails, rails - consumed, n);
    assert (rails - 1) * n < rails * n;
    Distribute(rails, rails - consumed, -1);
  }

  // What getIBClusterAvailability reports for a node with a rail in each of the
  // given zones and consumed rails in use. Rounding only ever adds: the zones
  // together promise at least what the node has, and less than one rail more
  // per zone beyond the first.
  method NodeAvailability(zones: seq<int>, consumed: nat) returns (r: Option<Availability>)
    ensures r.None? <==> consumed >= |zones|
    ensures r.Some? ==> r.value.total == |zones| - consumed
    ensures r.Some? ==> r.value.perZone.Keys == ZoneSet(zones)
    ensures r.Some? ==> forall z :: z in r.value.perZone ==>
      && 1 <= r.value.perZone[z] <= CountZone(zones, z)
      && r.value.perZone[z] == CountZone(zones, z) - consumed * CountZone(zones, z) / |zones|
    ensures r.Some? ==>
      r.value.total <= SumOf(r.value.perZone) <= r.value.total + |ZoneSet(zones)| - 1
  {
    var available := |zones| - consumed;
    if available <= 0 {
      return None;
    }
    var totals := CountZones(zones);
    CountsSum(zones, totals);
    assert zones[0] in totals;
    forall z | z in totals
      ensures totals[z] > 0
    {
      CountZonePositive(zones, z);
    }
    var perZone := Shares(totals, consumed, |zones|);
    FairIsBalanced(|zones|, consumed, totals, perZone);
    BalancedBounds(|zones|, consumed, SumOf(perZone), |totals|);
    assert |totals| == |totals.Keys|;
    r := Some(Availability(perZone, available));
  }

  ghost predicate IsShare(total: int, given: int, consumed: nat, rails: nat)
    requires rails > 0
  {
    1 <= given <= total && given == ZoneAvailable(total, consumed, rails)
  }

  ghost predicate Fair(rails: nat, consumed: nat, totals: map<int, int>, given: map<int, int>)
    requires rails > 0
  {
    && given.Keys == totals.Keys
    && forall z :: z in totals ==> IsShare(totals[z], given[z], consumed, rails)
  }

  lemma {:induction false} FairIsBalanced(rails: nat, consumed: nat, totals: map<int, int>, given: map<int, int>)
    requires consumed < rails && Fair(rails, consumed, totals, given)
    ensures Balanced(rails, consumed, SumOf(totals), SumOf(given), |totals|)
    decreases |totals|
  {
    if |totals| == 0 {
      assert SumOf(totals) == 0 && SumOf(given) == 0;
    } else {
      var item :| item in totals.Items;
      var z := item.0;
      FairIsBalanced(rails, consumed, totals - {z}, given - {z});
      BalancedStep(rails, consumed, totals, given, z);
    }
  }

  lemma BalancedStep(rails: nat, consumed: nat, totals: map<int, int>, given: map<int, int>, z: int)
    requires consumed < rails && z in totals && z in given && IsShare(totals[z], given[z], consumed, rails)
    requires Balanced(rails, consumed, SumOf(totals - {z}), SumOf(given - {z}), |totals - {z}|)
    ensures Balanced(rails, consumed, SumOf(totals), SumOf(given), |totals|)
  {
    ZoneShare(totals[z], consumed, rails);
    BalancedAdds(rails, consumed, SumOf(totals - {z}), SumOf(given - {z}), |totals - {z}|, totals[z], given[z]);
    SumTakes(totals, z);
    SumTakes(given, z);
    assert |totals - {z}| + 1 == |totals| by {
      assert (totals - {z}).Keys == totals.Keys - {z};
    }
  }

  method Shares(totals: map<int, int>, consumed: nat, rails: nat) returns (perZone: map<int, int>)
    requires consumed < rails
    requires forall z :: z in totals ==> totals[z] > 0
    ensures Fair(rails, consumed, totals, perZone)
  {
    perZone := map[];
    var left := totals.Keys;
    while left != {}
      invariant left <= totals.Keys && perZone.Keys == totals.Keys - left
      invariant forall z :: z in perZone ==> IsShare(totals[z], perZone[z], consumed, rails)
      decreases left
    {
      var z := AnyOf(left);
      left := left - {z};
      var zoneConsumed := consumed * totals[z] / rails;
      var avail := totals[z] - zoneConsumed;
      ZoneBounds(totals[z], consumed, rails);
      if avail > 0 {
        perZone := perZone[z := avail];
      }
    }
  }
}
