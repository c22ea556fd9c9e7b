// Picking a number of ids out of one NUMA zone, or out of all of them.
module Selection {
  import opened Basics
  import opened Sorting

  // A selectable id and the zone it lies in
  datatype Item = Item(zone: int, id: nat)

  // The ids of one zone, in scan order
  function InZone(items: seq<Item>, zone: int): seq<nat> {
    if items == [] then []
    else
      var before := InZone(items[..|items| - 1], zone);
      if items[|items| - 1].zone == zone then before + [items[|items| - 1].id] else before
  }

  function Ids(items: seq<Item>): seq<nat> {
    seq(|items|, i requires 0 <= i < |items| => items[i].id)
  }

  lemma {:induction false} InZoneMembers(items: seq<Item>, zone: int, id: nat)
    ensures id in InZone(items, zone) <==> Item(zone, id) in items
  {
    if items != [] {
      var n := |items| - 1;
      InZoneMembers(items[..n], zone, id);
      assert items == items[..n] + [items[n]];
    }
  }

  ghost predicate Eligible(items: seq<Item>, zone: int, count: nat) {
    |InZone(items, zone)| >= count && exists i :: 0 <= i < |items| && items[i].zone == zone
  }

  // The zone the packing strategy wants: the smallest eligible one for a
  // request below the zone capacity, the largest otherwise.
  ghost predicate Preferred(items: seq<Item>, zone: int, count: nat, maxPerZone: int) {
    && Eligible(items, zone, count)
    && forall other :: Eligible(items, other, count) ==>
         if count < maxPerZone then |InZone(items, zone)| <= |InZone(items, other)|
         else |InZone(items, zone)| >= |InZone(items, other)|
  }

  lemma NoneEligible(items: seq<Item>, count: nat)
    requires forall zone :: !Eligible(items, zone, count)
    ensures items == [] || count > 0
  {
    assert items != [] ==> !Eligible(items, items[0].zone, count);
  }

  ghost predicate CanSupply(items: seq<Item>, count: nat, oneZone: bool) {
    count == 0 || (if oneZone then exists zone :: Eligible(items, zone, count) else |items| >= count)
  }

  // What a selection may be
  ghost predicate Selected(items: seq<Item>, count: nat, oneZone: bool, maxPerZone: int, ids: seq<nat>) {
    if oneZone then
      (exists zone :: Preferred(items, zone, count, maxPerZone) && ids == InZone(items, zone)[..count])
      || (count == 0 && items == [] && ids == [])
    else |items| >= count && ids == Ids(items)[..count]
  }

  // selectSlots and selectExplicitPairs: the first count ids of the preferred
  // zone, or of everything; nothing when no zone is large enough.
  method Select(items: seq<Item>, count: nat, oneZone: bool, maxPerZone: int) returns (ids: seq<nat>)
    ensures |ids| == count <==> CanSupply(items, count, oneZone)
    ensures |ids| == count ==> Selected(items, count, oneZone, maxPerZone, ids)
    ensures |ids| != count ==> ids == []
  {
    if !oneZone {
      var all: seq<nat> := [];
      for i := 0 to |items|
        invariant all == Ids(items[..i])
      {
        all := all + [items[i].id];
      }
      assert items[..|items|] == items;
      ids := if |all| >= count then all[..count] else [];
      return;
    }
    var groups := GroupByZone(items);
    var eligible: seq<seq<nat>> := [];
    ghost var zones: seq<int> := [];
    var left := groups.Keys;
    while left != {}
      invariant left <= groups.Keys
      invariant |zones| == |eligible|
      invariant forall k :: 0 <= k < |zones| ==>
        Eligible(items, zones[k], count) && eligible[k] == InZone(items, zones[k])
      invariant forall zone :: zone in groups.Keys - left && Eligible(items, zone, count) ==>
        InZone(items, zone) in eligible
      decreases left
    {
      var zone := AnyOf(left);
      left := left - {zone};
      if |groups[zone]| >= count {
        eligible := eligible + [groups[zone]];
        zones := zones + [zone];
      }
    }
    if eligible == [] {
      NoneEligible(items, count);
      return [];
    }
    var ranked := SortByKey(eligible, (ids: seq<nat>) => if count < maxPerZone then |ids| else -|ids|);
    PermutationFacts(ranked, eligible);
    var best := ranked[0];
    assert best in eligible;
    ghost var k :| 0 <= k < |eligible| && eligible[k] == best;
    ids := best[..count];
    forall other | Eligible(items, other, count)
      ensures if count < maxPerZone then |best| <= |InZone(items, other)| else |best| >= |InZone(items, other)|
    {
      assert other in groups;
      assert InZone(items, other) in ranked;
      var j :| 0 <= j < |ranked| && ranked[j] == InZone(items, other);
    }
    assert Preferred(items, zones[k], count, maxPerZone);
  }

  method GroupByZone(items: seq<Item>) returns (groups: map<int, seq<nat>>)
    ensures forall zone :: zone in groups <==> exists i :: 0 <= i < |items| && items[i].zone == zone
    ensures forall zone :: zone in groups ==> groups[zone] == InZone(items, zone)
  {
    groups := map[];
    for n := 0 to |items|
      invariant forall zone :: zone in groups <==> exists i :: 0 <= i < n && items[i].zone == zone
      invariant forall zone :: zone !in groups ==> InZone(items[..n], zone) == []
      invariant forall zone :: zone in groups ==> groups[zone] == InZone(items[..n], zone)
    {
      var item := items[n];
      assert items[..n + 1][..n] == items[..n];
      groups := groups[item.zone := (if item.zone in groups then groups[item.zone] else []) + [item.id]];
    }
    assert items[..|items|] == items;
  }

  // ---- what a selection keeps -----------------------------------------------

  ghost predicate UniqueIds(items: seq<Item>) {
    forall i, j :: 0 <= i < j < |items| ==> items[i].id != items[j].id
  }

  lemma {:induction false} InZoneNoRepeats(items: seq<Item>, zone: int)
    requires UniqueIds(items)
    ensures NoRepeats(InZone(items, zone))
  {
    if items != [] {
      var n := |items| - 1;
      InZoneNoRepeats(items[..n], zone);
      InZoneMembers(items[..n], zone, items[n].id);
    }
  }

  ghost predicate AllFrom(items: seq<Item>, zone: int, ids: seq<nat>) {
    forall id :: id in ids ==> Item(zone, id) in items
  }

  // A selection draws from the items it was given, all from one zone when that
  // is asked for, and never draws an id twice if no id is listed twice.
  lemma SelectedFromItems(items: seq<Item>, count: nat, oneZone: bool, maxPerZone: int, ids: seq<nat>)
    requires Selected(items, count, oneZone, maxPerZone, ids)
    ensures forall id :: id in ids ==> exists zone :: Item(zone, id) in items
    ensures oneZone ==> exists zone :: AllFrom(items, zone, ids)
    ensures UniqueIds(items) ==> NoRepeats(ids)
  {
    if oneZone {
      if ids != [] {
        var zone :| Preferred(items, zone, count, maxPerZone) && ids == InZone(items, zone)[..count];
        forall id | id in ids
          ensures Item(zone, id) in items
        {
          assert id in InZone(items, zone);
          InZoneMembers(items, zone, id);
        }
        assert AllFrom(items, zone, ids);
        if UniqueIds(items) {
          InZoneNoRepeats(items, zone);
        }
      } else {
        assert AllFrom(items, 0, ids);
      }
    } else {
      forall id | id in ids
        ensures exists zone :: Item(zone, id) in items
      {
        var i :| 0 <= i < |ids| && ids[i] == id;
        assert items[i] == Item(items[i].zone, id);
      }
    }
  }

  // ---- packing keeps the largest zone whole ---------------------------------

  function Without(items: seq<Item>, ids: seq<nat>): seq<Item> {
    if items == [] then []
    else
      var before := Without(items[..|items| - 1], ids);
      if items[|items| - 1].id in ids then before else before + [items[|items| - 1]]
  }

  lemma {:induction false} WithoutMisses(items: seq<Item>, ids: seq<nat>, zone: int)
    requires forall id :: id in ids ==> Item(zone, id) !in items
    ensures InZone(Without(items, ids), zone) == InZone(items, zone)
  {
    if items != [] {
      var n := |items| - 1;
      var last := items[n];
      assert items == items[..n] + [last];
      WithoutMisses(items[..n], ids, zone);
      var before := Without(items[..n], ids);
      if last.id in ids {
        assert last == Item(last.zone, last.id);
      } else {
        assert (before + [last])[..|before|] == before;
      }
    }
  }

  ghost predicate LargestZone(items: seq<Item>, size: nat) {
    && (exists zone :: |InZone(items, zone)| == size)
    && forall zone :: |InZone(items, zone)| <= size
  }

  predicate Loses(items: seq<Item>, ids: seq<nat>, zone: int) {
    exists id :: id in ids && Item(zone, id) in items
  }

  lemma {:induction false} WithoutShrinks(items: seq<Item>, ids: seq<nat>, zone: int)
    ensures |InZone(Without(items, ids), zone)| <= |InZone(items, zone)|
    ensures Loses(items, ids, zone) ==> |InZone(Without(items, ids), zone)| < |InZone(items, zone)|
  {
    if items != [] {
      var n := |items| - 1;
      var last, before := items[n], Without(items[..n], ids);
      assert items == items[..n] + [last];
      WithoutShrinks(items[..n], ids, zone);
      if last.id !in ids {
        assert (before + [last])[..|before|] == before;
      }
    }
  }

  // Taking ids off a node shrinks its largest zone exactly when every zone of
  // that size held one of them.
  lemma LargestShrinksExactly(items: seq<Item>, ids: seq<nat>, before: nat, after: nat)
    requires LargestZone(items, before) && LargestZone(Without(items, ids), after)
    ensures after < before <==> forall zone :: |InZone(items, zone)| == before ==> Loses(items, ids, zone)
  {
    if after < before {
      forall zone | |InZone(items, zone)| == before
        ensures Loses(items, ids, zone)
      {
        assert |InZone(Without(items, ids), zone)| <= after;
        if !Loses(items, ids, zone) {
          WithoutMisses(items, ids, zone);
        }
      }
    }
    var zone :| |InZone(Without(items, ids), zone)| == after;
    WithoutShrinks(items, ids, zone);
    assert |InZone(items, zone)| <= before;
  }

  // No other zone lists an id of the selection.
  ghost predicate InOneZone(items: seq<Item>, ids: seq<nat>) {
    forall id, z1, z2 :: id in ids && Item(z1, id) in items && Item(z2, id) in items ==> z1 == z2
  }

  // A small single-zone grant lowers the size of the largest zone only when
  // the zone it came from was the only one able to host it, provided that no
  // other zone lists a granted id.
  lemma SmallGrantKeepsLargestZone(items: seq<Item>, count: nat, maxPerZone: int, ids: seq<nat>,
                                   before: nat, after: nat, z1: int, z2: int)
    requires InOneZone(items, ids)
    requires 0 < count < maxPerZone
    requires Selected(items, count, true, maxPerZone, ids)
    requires LargestZone(items, before) && LargestZone(Without(items, ids), after) && after < before
    requires Eligible(items, z1, count) && Eligible(items, z2, count)
    ensures z1 == z2
  {
    var chosen :| Preferred(items, chosen, count, maxPerZone) && ids == InZone(items, chosen)[..count];
    LargestShrinksExactly(items, ids, before, after);
    if z1 != z2 {
      // some eligible zone other than the chosen one
      var other := if z1 == chosen then z2 else z1;
      var top :| |InZone(items, top)| == before;
      // among the zones other than the chosen one, one has the largest size
      var kept := if top == chosen then other else top;
      assert |InZone(items, other)| <= before && |InZone(items, kept)| == before;
      assert Loses(items, ids, kept);
      var id :| id in ids && Item(kept, id) in items;
      assert id in InZone(items, chosen);
      InZoneMembers(items, chosen, id);
    }
  }

  // Two devices of different zones under one rail: granting the rail from the
  // smaller zone shrinks the larger one, though either could host the request.
  lemma SharedRailShrinksLargestZone()
    ensures var items := [Item(0, 0), Item(1, 0), Item(1, 1)];
      && Selected(items, 1, true, 2, [0])
      && Eligible(items, 0, 1) && Eligible(items, 1, 1)
      && LargestZone(items, 2) && LargestZone(Without(items, [0]), 1)
  {
    var a, b, c := Item(0, 0), Item(1, 0), Item(1, 1);
    var items := [a, b, c];
    assert items[..2] == [a, b] && [a, b][..1] == [a] && [a][..0] == [];
    forall zone
      ensures InZone(items, zone) == if zone == 0 then [0] else if zone == 1 then [0, 1] else []
    {
      assert InZone([a], zone) == if zone == 0 then [0] else [];
      assert InZone([a, b], zone) == if zone == 0 then [0] else if zone == 1 then [0] else [];
    }
    assert Without([a], [0]) == [];
    assert Without([a, b], [0]) == [];
    assert Without(items, [0]) == [c] && [c][..0] == [];
    assert items[0].zone == 0 && items[1].zone == 1;
    assert Preferred(items, 0, 1, 2) && InZone(items, 0)[..1] == [0];
    assert |InZone(items, 1)| == 2 && |InZone([c], 1)| == 1;
  }

  // ---- which zone -----------------------------------------------------------

  ghost function PlacesIn(items: seq<Item>, zone: int): set<nat> {
    set i: nat | i < |items| && items[i].zone == zone
  }

  lemma {:induction false} PlacesInCounted(items: seq<Item>, zone: int)
    ensures |PlacesIn(items, zone)| == |InZone(items, zone)|
  {
    if items != [] {
      var n := |items| - 1;
      PlacesInCounted(items[..n], zone);
      var before := PlacesIn(items[..n], zone);
      if items[n].zone == zone {
        assert PlacesIn(items, zone) == before + {n};
      } else {
        assert PlacesIn(items, zone) == before;
      }
    } else {
      assert PlacesIn(items, zone) == {};
    }
  }

  // A single-zone selection comes from a zone with enough items: for a request
  // below the zone capacity the smallest such zone, otherwise the largest.
  lemma SelectionPacks(items: seq<Item>, count: nat, maxPerZone: int, ids: seq<nat>) returns (zone: int)
    requires Selected(items, count, true, maxPerZone, ids) && count > 0
    ensures |ids| == count <= |PlacesIn(items, zone)|
    ensures forall id :: id in ids ==> Item(zone, id) in items
    ensures forall other :: |PlacesIn(items, other)| >= count ==>
      if count < maxPerZone then |PlacesIn(items, zone)| <= |PlacesIn(items, other)|
      else |PlacesIn(items, zone)| >= |PlacesIn(items, other)|
  {
    zone :| Preferred(items, zone, count, maxPerZone) && ids == InZone(items, zone)[..count];
    PlacesInCounted(items, zone);
    forall id | id in ids
      ensures Item(zone, id) in items
    {
      InZoneMembers(items, zone, id);
    }
    forall other | |PlacesIn(items, other)| >= count
      ensures if count < maxPerZone then |PlacesIn(items, zone)| <= |PlacesIn(items, other)|
              else |PlacesIn(items, zone)| >= |PlacesIn(items, other)|
    {
      PlacesInCounted(items, other);
      var i :| i in PlacesIn(items, other);
      assert items[i].zone == other;
      assert Eligible(items, other, count);
    }
  }
}
