// What the allocator's decisions say in terms of slices, attributes and claims alone.
module Decisions {
  import opened Basics
  import opened Pods
  import opened Constraints
  import opened Ledger
  import opened Scan
  import opened Selection
  import opened Allocator

  // ---- counting devices -----------------------------------------------------

  type Where = (Slice, Device) -> bool

  // The places of the devices with a property in the lists of the slices
  ghost function Places(slices: seq<Slice>, p: Where): set<(nat, nat)> {
    set i: nat, j: nat | i < |slices| && j < |slices[i].devices| && p(slices[i], slices[i].devices[j]) :: (i, j)
  }

  ghost function PlacesIn(i: nat, slice: Slice, n: nat, p: Where): set<(nat, nat)>
    requires n <= |slice.devices|
  {
    set j: nat | j < n && p(slice, slice.devices[j]) :: (i, j)
  }

  ghost function CountIn(slice: Slice, devices: seq<Device>, p: Where): nat {
    if devices == [] then 0
    else
      var n := |devices| - 1;
      CountIn(slice, devices[..n], p) + if p(slice, devices[n]) then 1 else 0
  }

  ghost function Count(slices: seq<Slice>, p: Where): nat {
    if slices == [] then 0
    else
      var last := slices[|slices| - 1];
      Count(slices[..|slices| - 1], p) + CountIn(last, last.devices, p)
  }

  lemma {:induction false} PlacesInCounted(i: nat, slice: Slice, n: nat, p: Where)
    requires n <= |slice.devices|
    ensures |PlacesIn(i, slice, n, p)| == CountIn(slice, slice.devices[..n], p)
  {
    if n > 0 {
      PlacesInCounted(i, slice, n - 1, p);
      assert slice.devices[..n][..n - 1] == slice.devices[..n - 1];
      var before := PlacesIn(i, slice, n - 1, p);
      if p(slice, slice.devices[n - 1]) {
        assert PlacesIn(i, slice, n, p) == before + {(i, n - 1)};
      } else {
        assert PlacesIn(i, slice, n, p) == before;
      }
    } else {
      assert PlacesIn(i, slice, 0, p) == {};
    }
  }

  lemma {:induction false} PlacesCounted(slices: seq<Slice>, p: Where)
    ensures |Places(slices, p)| == Count(slices, p)
  {
    if slices != [] {
      var m := |slices| - 1;
      var before, here := Places(slices[..m], p), PlacesIn(m, slices[m], |slices[m].devices|, p);
      PlacesCounted(slices[..m], p);
      PlacesInCounted(m, slices[m], |slices[m].devices|, p);
      assert slices[m].devices[..|slices[m].devices|] == slices[m].devices;
      assert Places(slices, p) == before + here;
      assert before !! here;
    } else {
      assert Places(slices, p) == {};
    }
  }

  // ---- devices of a class ---------------------------------------------------

  // The places of the class on the node
  ghost function ListedPlaces(inv: Inventory, cls: string, node: string): set<(nat, nat)>
    requires inv.slices.Some?
  {
    Places(inv.slices.value, (s: Slice, d: Device) => s.driver == cls && s.nodeName == Some(node))
  }

  // The devices of the class on the node that claims hold
  ghost function HeldPlaces(inv: Inventory, cls: string, node: string): set<nat> {
    if inv.allotted.None? then {}
    else set k: nat | k < |inv.allotted.value| &&
                      inv.allotted.value[k].driver == cls && inv.allotted.value[k].pool == node
  }

  lemma {:induction false} DevicesCounted(slices: seq<Slice>, cls: string, node: string)
    requires node != ""
    ensures Count(slices, (s: Slice, d: Device) => s.driver == cls && s.nodeName == Some(node)) ==
      CountDevices(slices, cls, node)
  {
    if slices != [] {
      var last := slices[|slices| - 1];
      DevicesCounted(slices[..|slices| - 1], cls, node);
      AllCounted(last, last.devices, cls, node);
    }
  }

  lemma {:induction false} AllCounted(slice: Slice, devices: seq<Device>, cls: string, node: string)
    ensures CountIn(slice, devices, (s: Slice, d: Device) => s.driver == cls && s.nodeName == Some(node)) ==
      if slice.driver == cls && slice.nodeName == Some(node) then |devices| else 0
  {
    if devices != [] {
      AllCounted(slice, devices[..|devices| - 1], cls, node);
    }
  }

  ghost function HeldBelow(allotted: seq<Allotted>, n: nat, cls: string, node: string): set<nat>
    requires n <= |allotted|
  {
    set k: nat | k < n && allotted[k].driver == cls && allotted[k].pool == node
  }

  lemma {:induction false} AllottedCounted(allotted: seq<Allotted>, n: nat, cls: string, node: string)
    requires n <= |allotted|
    ensures |HeldBelow(allotted, n, cls, node)| == CountAllotted(allotted[..n], cls, node)
  {
    if n > 0 {
      AllottedCounted(allotted, n - 1, cls, node);
      assert allotted[..n][..n - 1] == allotted[..n - 1];
      var before := HeldBelow(allotted, n - 1, cls, node);
      if allotted[n - 1].driver == cls && allotted[n - 1].pool == node {
        assert HeldBelow(allotted, n, cls, node) == before + {n - 1};
      } else {
        assert HeldBelow(allotted, n, cls, node) == before;
      }
    } else {
      assert HeldBelow(allotted, 0, cls, node) == {};
    }
  }

  lemma UnclaimedCounted(inv: Inventory, cls: string, node: string)
    requires inv.slices.Some? && node != ""
    ensures Unclaimed(inv, cls, node) == |ListedPlaces(inv, cls, node)| - |HeldPlaces(inv, cls, node)|
  {
    PlacesCounted(inv.slices.value, (s: Slice, d: Device) => s.driver == cls && s.nodeName == Some(node));
    DevicesCounted(inv.slices.value, cls, node);
    if inv.allotted.Some? {
      var all := inv.allotted.value;
      AllottedCounted(all, |all|, cls, node);
      assert all[..|all|] == all;
      assert HeldPlaces(inv, cls, node) == HeldBelow(all, |all|, cls, node);
    }
  }

  // The node has room for the devices asked for: as many are listed, in no claim
  // and not reserved.
  ghost predicate HasRoom(inv: Inventory, live: Pending, cls: string, count: nat, node: string) {
    && inv.slices.Some? && node != ""
    && |ListedPlaces(inv, cls, node)| - |HeldPlaces(inv, cls, node)| >= count + |Held(live, cls, node)|
  }

  // A call for devices is granted them exactly when the node it is constrained
  // to has room, or, without one, when some admissible node has; and then on a
  // node that has.
  lemma DevicesGrantedExactly(inv: Inventory, live: Pending, pod: Pod, namespace: string, cluster: Cluster,
                              count: nat, cls: string, constrainTo: string, e: Event)
    requires DevicesDecided(inv, live, pod, namespace, cluster, count, cls, constrainTo, e) && count > 0
    ensures if constrainTo != "" then e.Extended? <==> HasRoom(inv, live, cls, count, constrainTo)
            else e.Extended? <==>
              CanFilter(pod, cluster) &&
              exists n :: Admits(pod, namespace, cluster, n) && HasRoom(inv, live, cls, count, n)
    ensures e.Extended? ==>
      && e.cls == cls && e.count == count && HasRoom(inv, live, cls, count, e.node)
      && (if constrainTo != "" then e.node == constrainTo else Admits(pod, namespace, cluster, e.node))
    ensures !e.Extended? ==> e.Refused?
  {
    if inv.slices.Some? {
      var counts, free :| && IsCount(inv, cls, counts) && IsLessHeld(counts, live, cls, free)
                          && DevicesChosen(pod, namespace, cluster, free, count, cls, constrainTo, e)
                          && (e.Extended? ==> e.scanned == CountOn(counts, e.node));
      forall n
        ensures CountOn(free, n) >= count <==> HasRoom(inv, live, cls, count, n)
      {
        FreeIsRoom(inv, live, cls, count, n, counts, free);
      }
      forall n
        ensures HasDevices(pod, namespace, cluster, free, count, n) <==>
          Admits(pod, namespace, cluster, n) && HasRoom(inv, live, cls, count, n)
      {
        assert CountOn(free, n) >= count <==> HasRoom(inv, live, cls, count, n);
      }
    }
  }

  lemma FreeIsRoom(inv: Inventory, live: Pending, cls: string, count: nat, node: string, counts: map<string, int>,
                   free: map<string, int>)
    requires IsCount(inv, cls, counts) && IsLessHeld(counts, live, cls, free) && count > 0
    ensures CountOn(free, node) >= count <==> HasRoom(inv, live, cls, count, node)
  {
    assert CountOn(counts, node) == Unclaimed(inv, cls, node);
    if node != "" {
      UnclaimedCounted(inv, cls, node);
    }
    if node in counts {
      assert free[node] == LessHeld(counts[node], |Held(live, cls, node)|);
    }
  }

  // Nothing is granted on a node where claims hold every listed device.
  lemma NoneLeft(inv: Inventory, live: Pending, pod: Pod, namespace: string, cluster: Cluster, count: nat, cls: string,
                 constrainTo: string, e: Event)
    requires DevicesDecided(inv, live, pod, namespace, cluster, count, cls, constrainTo, e) && count > 0
    requires constrainTo != "" && inv.slices.Some?
    requires |HeldPlaces(inv, cls, constrainTo)| >= |ListedPlaces(inv, cls, constrainTo)|
    ensures e.Refused?
  {
    DevicesGrantedExactly(inv, live, pod, namespace, cluster, count, cls, constrainTo, e);
  }

  // In a run, the reservations are the largest grant within the time-to-live.
  lemma GrantHasRoom(events: seq<Event>, ttl: nat, j: nat, inv: Inventory, pod: Pod, namespace: string,
                     cluster: Cluster, constrainTo: string)
    requires IsRun(events, ttl) && forall i :: 0 <= i < |events| ==> NamesPlain(events[i])
    requires j < |events| && events[j].Extended? && events[j].count > 0
    requires DevicesDecided(inv, Live(Replay(events[..j], ttl), events[j].start, ttl), pod, namespace, cluster,
                            events[j].count, events[j].cls, constrainTo, events[j])
    ensures inv.slices.Some? && events[j].node != ""
    ensures |ListedPlaces(inv, events[j].cls, events[j].node)| - |HeldPlaces(inv, events[j].cls, events[j].node)| >=
      events[j].count + LargestGrant(events[..j], events[j].cls, events[j].node, events[j].start, ttl)
  {
    var e := events[j];
    DevicesGrantedExactly(inv, Live(Replay(events[..j], ttl), e.start, ttl), pod, namespace, cluster, e.count, e.cls,
                          constrainTo, e);
    GrantFitsBesideLargest(events, ttl, j, inv, pod, namespace, cluster, constrainTo);
    UnclaimedCounted(inv, e.cls, e.node);
  }

  // ---- rails ----------------------------------------------------------------

  // The scan gives the device the rail: on Ethernet one whose prefix its address
  // has, on InfiniBand the one with its PCI address, and with RDMA where that is
  // required. Of rails listed twice it is the last.
  predicate Suits(cfg: Config, d: Device, r: nat) {
    && (cfg.rdmaRequired ==> "dra.net/rdma" in d.attributes && d.attributes["dra.net/rdma"] == BoolValue(true))
    && if cfg.infiniband then
         && r < |cfg.ibRails| && (forall k :: r < k < |cfg.ibRails| ==> cfg.ibRails[k].nic != cfg.ibRails[r].nic)
         && cfg.ibRails[r].nic != "" && "dra.net/pciAddress" in d.attributes
         && d.attributes["dra.net/pciAddress"] == StringValue(cfg.ibRails[r].nic)
       else
         && r < |cfg.rails| && (forall k :: r < k < |cfg.rails| ==> cfg.rails[k] != cfg.rails[r])
         && "dra.net/ipv4" in d.attributes && d.attributes["dra.net/ipv4"].StringValue?
         && d.attributes["dra.net/ipv4"].s != "" && cfg.rails[r] <= d.attributes["dra.net/ipv4"].s
  }

  // On InfiniBand a claim holds the device.
  predicate InClaim(cfg: Config, inv: Inventory, node: string, d: Device) {
    cfg.infiniband && inv.allotted.Some? &&
    exists k :: 0 <= k < |inv.allotted.value| && inv.allotted.value[k].driver == "dra.net" &&
      inv.allotted.value[k].pool + ":" + inv.allotted.value[k].device == node + ":" + d.name
  }

  // Its NUMA node, where a device that tells none counts as on node -1
  predicate OnNUMANode(d: Device, z: int) {
    if "dra.net/numaNode" in d.attributes && d.attributes["dra.net/numaNode"].IntValue?
    then d.attributes["dra.net/numaNode"] == IntValue(z) else z == -1
  }

  predicate InZones(d: Device, zone: Option<int>) {
    zone.Some? ==> OnNUMANode(d, zone.value)
  }

  predicate IsNIC(s: Slice, node: string) {
    s.driver == "dra.net" && s.nodeName == Some(node)
  }

  // A rail the device may be given is not reserved; every such rail is not.
  ghost predicate MayServe(cfg: Config, inv: Inventory, live: Pending, node: string, zone: Option<int>, d: Device) {
    && !InClaim(cfg, inv, node, d) && InZones(d, zone)
    && exists r: nat :: Suits(cfg, d, r) && r !in Blocked(live, node)
  }

  ghost predicate MustServe(cfg: Config, inv: Inventory, live: Pending, node: string, zone: Option<int>, d: Device) {
    && MayServe(cfg, inv, live, node, zone, d)
    && forall r: nat :: Suits(cfg, d, r) ==> r !in Blocked(live, node)
  }

  // The network devices of a node that may serve, and those that must, within a
  // zone if one is given. They are the same where no device has two rails.
  ghost function MayPlaces(cfg: Config, inv: Inventory, live: Pending, node: string, zone: Option<int>)
    : set<(nat, nat)>
    requires inv.slices.Some?
  {
    Places(inv.slices.value, (s: Slice, d: Device) => IsNIC(s, node) && MayServe(cfg, inv, live, node, zone, d))
  }

  ghost function MustPlaces(cfg: Config, inv: Inventory, live: Pending, node: string, zone: Option<int>)
    : set<(nat, nat)>
    requires inv.slices.Some?
  {
    Places(inv.slices.value, (s: Slice, d: Device) => IsNIC(s, node) && MustServe(cfg, inv, live, node, zone, d))
  }

  lemma MayIsMust(cfg: Config, inv: Inventory, live: Pending, node: string, zone: Option<int>)
    requires inv.slices.Some? && RailsApart(cfg)
    ensures MayPlaces(cfg, inv, live, node, zone) == MustPlaces(cfg, inv, live, node, zone)
  {
    forall d
      ensures MayServe(cfg, inv, live, node, zone, d) <==> MustServe(cfg, inv, live, node, zone, d)
    {
      forall r: nat, s: nat | Suits(cfg, d, r) && Suits(cfg, d, s)
        ensures r == s
      {
        if !cfg.infiniband {
          PrefixesOfOneAddress(cfg.rails[r], cfg.rails[s], d.attributes["dra.net/ipv4"].s);
        }
      }
    }
  }

  lemma OffersMeans(cfg: Config, inv: Inventory, node: string, d: Device, s: Slot)
    ensures Offers(cfg, inv, node, d, s) <==>
      !InClaim(cfg, inv, node, d) && Suits(cfg, d, s.rail) && OnNUMANode(d, s.zone)
  {
    if cfg.infiniband && s.rail < |cfg.ibRails| {
      assert forall k :: s.rail < k < |cfg.ibRails| ==> NICs(cfg.ibRails)[k] == cfg.ibRails[k].nic;
    }
    if InClaim(cfg, inv, node, d) {
      var k :| 0 <= k < |inv.allotted.value| && inv.allotted.value[k].driver == "dra.net" &&
        inv.allotted.value[k].pool + ":" + inv.allotted.value[k].device == node + ":" + d.name;
      assert inv.allotted.value[k] == Allotted("dra.net", inv.allotted.value[k].pool, inv.allotted.value[k].device);
    }
  }

  ghost function CountOf(devices: seq<Device>, q: Device -> bool): nat {
    if devices == [] then 0
    else
      var n := |devices| - 1;
      CountOf(devices[..n], q) + if q(devices[n]) then 1 else 0
  }

  lemma {:induction false} CountOfConcat(a: seq<Device>, b: seq<Device>, q: Device -> bool)
    ensures CountOf(a + b, q) == CountOf(a, q) + CountOf(b, q)
  {
    if b == [] {
      assert a + b == a;
    } else {
      var n := |b| - 1;
      CountOfConcat(a, b[..n], q);
      assert (a + b)[..|a| + n] == a + b[..n];
    }
  }

  lemma {:induction false} NICsCounted(slices: seq<Slice>, node: string, q: Device -> bool)
    requires node != ""
    ensures Count(slices, (s: Slice, d: Device) => IsNIC(s, node) && q(d)) == CountOf(DevicesOn(slices, node), q)
  {
    if slices != [] {
      var last := slices[|slices| - 1];
      var before := DevicesOn(slices[..|slices| - 1], node);
      NICsCounted(slices[..|slices| - 1], node, q);
      OneSliceCounted(last, last.devices, node, q);
      CountOfConcat(before, if IsNIC(last, node) then last.devices else [], q);
    }
  }

  lemma {:induction false} OneSliceCounted(slice: Slice, devices: seq<Device>, node: string, q: Device -> bool)
    ensures CountIn(slice, devices, (s: Slice, d: Device) => IsNIC(s, node) && q(d)) ==
      if IsNIC(slice, node) then CountOf(devices, q) else 0
  {
    if devices != [] {
      OneSliceCounted(slice, devices[..|devices| - 1], node, q);
    }
  }

  // What a list of items has to offer in a zone, or altogether
  function Supply(items: seq<Item>, zone: Option<int>): nat {
    if zone.Some? then |InZone(items, zone.value)| else |items|
  }

  lemma SupplySnoc(items: seq<Item>, item: Item, zone: Option<int>)
    ensures Supply(items + [item], zone) ==
      Supply(items, zone) + if zone.Some? && item.zone != zone.value then 0 else 1
  {
    assert (items + [item])[..|items|] == items;
  }

  lemma {:induction false} SupplyBounds(cfg: Config, inv: Inventory, live: Pending, node: string, zone: Option<int>,
                                        devices: seq<Device>, slots: seq<Slot>)
    requires Lists(cfg, inv, node, devices, slots)
    ensures CountOf(devices, d => MustServe(cfg, inv, live, node, zone, d)) <=
      Supply(Items(FreeSlots(slots, Blocked(live, node))), zone) <=
      CountOf(devices, d => MayServe(cfg, inv, live, node, zone, d))
  {
    if devices != [] {
      var n := |devices| - 1;
      if CanOffer(cfg, inv, node, devices[n]) {
        var m := |slots| - 1;
        SupplyBounds(cfg, inv, live, node, zone, devices[..n], slots[..m]);
        LastSupplies(cfg, inv, live, node, zone, devices[n], slots);
      } else {
        SupplyBounds(cfg, inv, live, node, zone, devices[..n], slots);
        NothingServed(cfg, inv, live, node, zone, devices[n]);
      }
    }
  }

  lemma {:induction false} LastSupplies(cfg: Config, inv: Inventory, live: Pending, node: string, zone: Option<int>,
                                        d: Device, slots: seq<Slot>)
    requires slots != [] && Offers(cfg, inv, node, d, slots[|slots| - 1])
    ensures var before := Supply(Items(FreeSlots(slots[..|slots| - 1], Blocked(live, node))), zone);
      var after := Supply(Items(FreeSlots(slots, Blocked(live, node))), zone);
      && before + (if MustServe(cfg, inv, live, node, zone, d) then 1 else 0) <= after
      && after <= before + if MayServe(cfg, inv, live, node, zone, d) then 1 else 0
  {
    var s := slots[|slots| - 1];
    var before := FreeSlots(slots[..|slots| - 1], Blocked(live, node));
    OffersMeans(cfg, inv, node, d, s);
    SupplySnoc(Items(before), Item(s.zone, s.rail), zone);
    assert Items(before + [s]) == Items(before) + [Item(s.zone, s.rail)];
  }

  lemma NothingServed(cfg: Config, inv: Inventory, live: Pending, node: string, zone: Option<int>, d: Device)
    requires !CanOffer(cfg, inv, node, d)
    ensures !MayServe(cfg, inv, live, node, zone, d)
  {
    if MayServe(cfg, inv, live, node, zone, d) {
      var r: nat :| Suits(cfg, d, r) && r !in Blocked(live, node);
      OffersMeans(cfg, inv, node, d, Slot(r, Zone(d)));
    }
  }

  lemma PlacesBoundSupply(cfg: Config, inv: Inventory, slots: Slots, live: Pending, node: string, zone: Option<int>)
    requires inv.slices.Some? && IsScan(cfg, inv, inv.slices.value, slots) && node != ""
    ensures |MustPlaces(cfg, inv, live, node, zone)| <=
      Supply(Items(FreeSlots(SlotsOn(slots, node), Blocked(live, node))), zone) <=
      |MayPlaces(cfg, inv, live, node, zone)|
  {
    var slices := inv.slices.value;
    SupplyBounds(cfg, inv, live, node, zone, DevicesOn(slices, node), SlotsOn(slots, node));
    NICsCounted(slices, node, d => MustServe(cfg, inv, live, node, zone, d));
    NICsCounted(slices, node, d => MayServe(cfg, inv, live, node, zone, d));
    PlacesCounted(slices, (s: Slice, d: Device) => IsNIC(s, node) && MustServe(cfg, inv, live, node, zone, d));
    PlacesCounted(slices, (s: Slice, d: Device) => IsNIC(s, node) && MayServe(cfg, inv, live, node, zone, d));
    SamePlaces(slices, node, d => MustServe(cfg, inv, live, node, zone, d),
               (s: Slice, d: Device) => IsNIC(s, node) && MustServe(cfg, inv, live, node, zone, d));
    SamePlaces(slices, node, d => MayServe(cfg, inv, live, node, zone, d),
               (s: Slice, d: Device) => IsNIC(s, node) && MayServe(cfg, inv, live, node, zone, d));
  }

  // Two ways to write one property
  lemma {:induction false} SamePlaces(slices: seq<Slice>, node: string, q: Device -> bool, p: Where)
    requires forall s, d :: p(s, d) <==> IsNIC(s, node) && q(d)
    ensures Count(slices, (s: Slice, d: Device) => IsNIC(s, node) && q(d)) == Count(slices, p)
  {
    if slices != [] {
      var last := slices[|slices| - 1];
      SamePlaces(slices[..|slices| - 1], node, q, p);
      SamePlacesIn(last, last.devices, node, q, p);
    }
  }

  lemma {:induction false} SamePlacesIn(slice: Slice, devices: seq<Device>, node: string, q: Device -> bool, p: Where)
    requires forall s, d :: p(s, d) <==> IsNIC(s, node) && q(d)
    ensures CountIn(slice, devices, (s: Slice, d: Device) => IsNIC(s, node) && q(d)) == CountIn(slice, devices, p)
  {
    if devices != [] {
      SamePlacesIn(slice, devices[..|devices| - 1], node, q, p);
    }
  }

  // A request for rails is granted as soon as an admissible node has, in one zone
  // if that is asked, as many devices that must serve.
  lemma RailsGrantedWhenServed(cfg: Config, inv: Inventory, live: Pending, pod: Pod, namespace: string,
                               cluster: Cluster, count: nat, oneZone: bool, e: Event, n: string, zone: Option<int>)
    requires RailsDecided(cfg, inv, live, pod, namespace, cluster, count, oneZone, e) && count > 0
    requires inv.slices.Some? && n != "" && (oneZone ==> zone.Some?)
    requires CanFilter(pod, cluster) && Admits(pod, namespace, cluster, n)
    requires |MustPlaces(cfg, inv, live, n, zone)| >= count
    ensures e.Pairs?
  {
    var slots, free :| IsScan(cfg, inv, inv.slices.value, slots) && IsFree(slots, live, free)
      && RailsChosen(cfg, pod, namespace, cluster, free, count, oneZone, e);
    PlacesBoundSupply(cfg, inv, slots, live, n, zone);
    SuppliedIsFeasible(pod, namespace, cluster, slots, live, free, count, oneZone, n, zone);
  }

  // It is refused when no admissible node has as many that may serve.
  lemma RailsRefusedUnlessServed(cfg: Config, inv: Inventory, live: Pending, pod: Pod, namespace: string,
                                 cluster: Cluster, count: nat, oneZone: bool, e: Event)
    requires RailsDecided(cfg, inv, live, pod, namespace, cluster, count, oneZone, e) && count > 0
    requires inv.slices.Some? ==>
      forall n, zone: Option<int> :: n != "" && Admits(pod, namespace, cluster, n) && (oneZone ==> zone.Some?) ==>
        |MayPlaces(cfg, inv, live, n, zone)| < count
    ensures e.Refused?
  {
    if e.Pairs? {
      RailsGranted(cfg, inv, live, pod, namespace, cluster, count, oneZone, e);
      var zone := GrantedIsServed(cfg, inv, live, pod, namespace, cluster, count, oneZone, e);
    }
  }

  lemma GrantedIsServed(cfg: Config, inv: Inventory, live: Pending, pod: Pod, namespace: string, cluster: Cluster,
                        count: nat, oneZone: bool, e: Event)
    returns (zone: Option<int>)
    requires RailsDecided(cfg, inv, live, pod, namespace, cluster, count, oneZone, e) && count > 0 && e.Pairs?
    requires inv.slices.Some? && e.node != ""
    ensures (oneZone ==> zone.Some?) && |MayPlaces(cfg, inv, live, e.node, zone)| >= count
  {
    var slots, free := ScanBehind(cfg, inv, live, pod, namespace, cluster, count, oneZone, e);
    zone := FeasibleIsSupplied(pod, namespace, cluster, free, count, oneZone, e.node);
    PlacesBoundSupply(cfg, inv, slots, live, e.node, zone);
    assert SlotsOn(free, e.node) == FreeSlots(SlotsOn(slots, e.node), Blocked(live, e.node));
  }

  lemma SuppliedIsFeasible(pod: Pod, namespace: string, cluster: Cluster, slots: Slots, live: Pending, free: Slots,
                           count: nat, oneZone: bool, n: string, zone: Option<int>)
    requires IsFree(slots, live, free) && Admits(pod, namespace, cluster, n) && count > 0 && (oneZone ==> zone.Some?)
    requires Supply(Items(FreeSlots(SlotsOn(slots, n), Blocked(live, n))), zone) >= count
    ensures Feasible(pod, namespace, cluster, free, count, oneZone, n)
  {
    assert SlotsOn(free, n) == FreeSlots(SlotsOn(slots, n), Blocked(live, n));
    var items := Items(SlotsOn(free, n));
    if zone.Some? {
      ZoneIsPart(items, zone.value);
      var id := InZone(items, zone.value)[0];
      InZoneMembers(items, zone.value, id);
      assert Eligible(items, zone.value, count);
    }
  }

  lemma {:induction false} ZoneIsPart(items: seq<Item>, zone: int)
    ensures |InZone(items, zone)| <= |items|
  {
    if items != [] {
      ZoneIsPart(items[..|items| - 1], zone);
    }
  }

  lemma FeasibleIsSupplied(pod: Pod, namespace: string, cluster: Cluster, free: Slots, count: nat, oneZone: bool,
                           n: string)
    returns (zone: Option<int>)
    requires Feasible(pod, namespace, cluster, free, count, oneZone, n) && count > 0
    ensures (oneZone ==> zone.Some?) && Supply(Items(SlotsOn(free, n)), zone) >= count
  {
    if oneZone {
      var z :| Eligible(Items(free[n]), z, count);
      zone := Some(z);
    } else {
      zone := None;
    }
  }

  // The device is a network device of the node, in no claim, on the zone, and is
  // given the rail.
  ghost predicate Serves(cfg: Config, inv: Inventory, node: string, zone: Option<int>, r: nat, s: Slice, d: Device) {
    IsNIC(s, node) && !InClaim(cfg, inv, node, d) && InZones(d, zone) && Suits(cfg, d, r)
  }

  ghost predicate IsServed(cfg: Config, inv: Inventory, node: string, zone: Option<int>, r: nat)
    requires inv.slices.Some?
  {
    exists i, j :: 0 <= i < |inv.slices.value| && 0 <= j < |inv.slices.value[i].devices| &&
      Serves(cfg, inv, node, zone, r, inv.slices.value[i], inv.slices.value[i].devices[j])
  }

  // What the allocator had scanned and had left when it granted the rails
  lemma ScanBehind(cfg: Config, inv: Inventory, live: Pending, pod: Pod, namespace: string, cluster: Cluster,
                   count: nat, oneZone: bool, e: Event)
    returns (slots: Slots, free: Slots)
    requires RailsDecided(cfg, inv, live, pod, namespace, cluster, count, oneZone, e) && e.Pairs?
    ensures inv.slices.Some? && IsScan(cfg, inv, inv.slices.value, slots) && IsFree(slots, live, free)
    ensures Fewest(pod, namespace, cluster, free, count, oneZone, e.node)
    ensures Selected(Items(SlotsOn(free, e.node)), count, oneZone, cfg.maxPairsPerNUMA, e.rails)
  {
    slots, free :| IsScan(cfg, inv, inv.slices.value, slots) && IsFree(slots, live, free)
      && RailsChosen(cfg, pod, namespace, cluster, free, count, oneZone, e);
  }

  // Each granted rail is given to a device of the node and not reserved, all of
  // them on one NUMA node if that is asked.
  lemma GrantedRailsAreServed(cfg: Config, inv: Inventory, live: Pending, pod: Pod, namespace: string, cluster: Cluster,
                              count: nat, oneZone: bool, e: Event)
    returns (zone: Option<int>)
    requires RailsDecided(cfg, inv, live, pod, namespace, cluster, count, oneZone, e) && e.Pairs? && count > 0
    ensures inv.slices.Some? && |e.rails| == count && (oneZone ==> zone.Some?)
    ensures forall r :: r in e.rails ==> r !in Blocked(live, e.node) && IsServed(cfg, inv, e.node, zone, r)
  {
    RailsGranted(cfg, inv, live, pod, namespace, cluster, count, oneZone, e);
    var slots, free := ScanBehind(cfg, inv, live, pod, namespace, cluster, count, oneZone, e);
    zone := SelectionIsServed(cfg, inv, slots, live, free, e.node, count, oneZone, e.rails);
  }

  lemma SelectionIsServed(cfg: Config, inv: Inventory, slots: Slots, live: Pending, free: Slots, node: string,
                          count: nat, oneZone: bool, rails: seq<nat>)
    returns (zone: Option<int>)
    requires inv.slices.Some? && IsScan(cfg, inv, inv.slices.value, slots) && IsFree(slots, live, free) && node != ""
    requires Selected(Items(SlotsOn(free, node)), count, oneZone, cfg.maxPairsPerNUMA, rails)
    ensures oneZone ==> zone.Some?
    ensures forall r :: r in rails ==> IsServed(cfg, inv, node, zone, r)
  {
    var items := Items(SlotsOn(free, node));
    SelectedFromItems(items, count, oneZone, cfg.maxPairsPerNUMA, rails);
    zone := None;
    if oneZone {
      var z :| AllFrom(items, z, rails);
      zone := Some(z);
    }
    forall r | r in rails
      ensures IsServed(cfg, inv, node, zone, r)
    {
      var z :| Item(z, r) in items && (zone.Some? ==> zone.value == z);
      RailIsServed(cfg, inv, slots, live, free, node, z, r);
    }
  }

  lemma RailIsServed(cfg: Config, inv: Inventory, slots: Slots, live: Pending, free: Slots, node: string, z: int,
                     r: nat)
    requires inv.slices.Some? && IsScan(cfg, inv, inv.slices.value, slots) && IsFree(slots, live, free) && node != ""
    requires Item(z, r) in Items(SlotsOn(free, node))
    ensures IsServed(cfg, inv, node, Some(z), r) && IsServed(cfg, inv, node, None, r)
  {
    var all, kept := SlotsOn(slots, node), SlotsOn(free, node);
    assert kept == FreeSlots(all, Blocked(live, node));
    var k :| 0 <= k < |kept| && Items(kept)[k] == Item(z, r);
    FreeSlotsMembers(all, Blocked(live, node), kept[k]);
    ListedIsOffered(cfg, inv, node, DevicesOn(inv.slices.value, node), all, kept[k]);
    var d :| d in DevicesOn(inv.slices.value, node) && Offers(cfg, inv, node, d, kept[k]);
    OffersMeans(cfg, inv, node, d, kept[k]);
    var i, j := PlaceOf(inv.slices.value, node, d);
    assert Serves(cfg, inv, node, Some(z), r, inv.slices.value[i], inv.slices.value[i].devices[j]);
    assert Serves(cfg, inv, node, None, r, inv.slices.value[i], inv.slices.value[i].devices[j]);
  }

  lemma {:induction false} PlaceOf(slices: seq<Slice>, node: string, d: Device) returns (i: nat, j: nat)
    requires node != "" && d in DevicesOn(slices, node)
    ensures i < |slices| && IsNIC(slices[i], node) && j < |slices[i].devices| && slices[i].devices[j] == d
  {
    var m := |slices| - 1;
    if d in DevicesOn(slices[..m], node) {
      i, j := PlaceOf(slices[..m], node, d);
    } else {
      i := m;
      j :| j < |slices[m].devices| && slices[m].devices[j] == d;
    }
  }

  // ---- explicit pairs -------------------------------------------------------

  lemma ExplicitOnOneNUMANode(cfg: Config, inv: Inventory, live: Pending, pod: Pod, namespace: string,
                              cluster: Cluster, count: nat, e: Event)
    returns (c: Candidate, z: int)
    requires ExplicitDecided(cfg, inv, live, pod, namespace, cluster, count, true, e) && e.Explicit? && count > 0
    ensures cfg.pairing.Some? && cluster.nodes.Some? && c.node in cluster.nodes.value && c.node.name == e.node
    ensures PoolOf(cfg.pairing.value, c.node.labels) == Some(c.pool) && |e.indices| == count
    ensures forall i :: 0 <= i < count ==> e.indices[i] < |c.pool.pairs| && c.pool.pairs[e.indices[i]].numa == z
  {
    c := PairsGranted(cfg, inv, live, pod, namespace, cluster, count, true, e);
    z := SelectedNUMANode(cfg, c.pool, c.available, count, e.indices);
    forall i | 0 <= i < count
      ensures e.indices[i] < |c.pool.pairs|
    {
      assert PairFree(cfg, cfg.pairing.value, inv.slices.value, live, e.node, c.pool, e.indices[i]);
    }
  }

  lemma SelectedNUMANode(cfg: Config, pool: NodePool, available: seq<nat>, count: nat, indices: seq<nat>)
    returns (z: int)
    requires Selected(PairItems(pool, available), count, true, cfg.maxPairsPerNUMA, indices) && count > 0
    ensures forall i :: 0 <= i < |indices| ==>
      indices[i] in available && (indices[i] < |pool.pairs| ==> pool.pairs[indices[i]].numa == z)
  {
    var items := PairItems(pool, available);
    SelectedFromItems(items, count, true, cfg.maxPairsPerNUMA, indices);
    z :| AllFrom(items, z, indices);
    forall i | 0 <= i < |indices|
      ensures indices[i] in available && (indices[i] < |pool.pairs| ==> pool.pairs[indices[i]].numa == z)
    {
      assert indices[i] in indices;
      var k :| 0 <= k < |items| && items[k] == Item(z, indices[i]);
      assert available[k] == indices[i];
    }
  }

  // Each device of the pair is reported on the node: under a role of the same
  // class a device of its driver has the value as a string, and where that role
  // is the NIC an interface name and, if required, RDMA.
  lemma UsableMeans(cfg: Config, pairing: Pairing, slices: seq<Slice>, node: string, pair: PairMapping)
    ensures PairUsable(cfg, pairing, slices, node, pair) <==>
      forall role :: role in pair.devices ==>
        IsReported(cfg, pairing, slices, node,
                   if role in pairing.selectors then pairing.selectors[role].deviceClass else "", pair.devices[role])
  {
    forall role | role in pair.devices
      ensures RoleUsable(cfg, pairing, slices, node, pair, role) <==>
        IsReported(cfg, pairing, slices, node, ClassOf(pairing, role), pair.devices[role])
    {
      AvailableMeans(cfg, pairing, slices, node, ClassOf(pairing, role), pair.devices[role]);
    }
  }

  ghost predicate IsReported(cfg: Config, pairing: Pairing, slices: seq<Slice>, node: string, cls: string,
                             value: string) {
    exists i, j, role :: ReportedAt(cfg, pairing, slices, node, value, i, j, role) &&
                         pairing.selectors[role].deviceClass == cls
  }

  predicate ReportedAt(cfg: Config, pairing: Pairing, slices: seq<Slice>, node: string, value: string, i: int, j: int,
                       role: string) {
    && 0 <= i < |slices| && 0 <= j < |slices[i].devices| && role in pairing.selectors
    && (if slices[i].nodeName.Some? then slices[i].nodeName.value else "") == node
    && var sel, d := pairing.selectors[role], slices[i].devices[j];
    && slices[i].driver == (if sel.driver != "" then sel.driver else sel.deviceClass)
    && sel.attribute in d.attributes && d.attributes[sel.attribute] == StringValue(value)
    && (role == "nic" ==>
          && "dra.net/ifName" in d.attributes
          && (cfg.rdmaRequired ==> "dra.net/rdma" in d.attributes && d.attributes["dra.net/rdma"] == BoolValue(true)))
  }

  lemma AvailableMeans(cfg: Config, pairing: Pairing, slices: seq<Slice>, node: string, cls: string, value: string)
    ensures Available(cfg, pairing, slices, node, (cls, value)) <==>
      IsReported(cfg, pairing, slices, node, cls, value)
  {
    if Available(cfg, pairing, slices, node, (cls, value)) {
      var i, j :| 0 <= i < |slices| && NodeOf(slices[i]) == node && 0 <= j < |slices[i].devices| &&
        (cls, value) in ReportedKeys(cfg, pairing, slices[i].driver, slices[i].devices[j]);
      var d := slices[i].devices[j];
      var other :| other in pairing.selectors && Reports(cfg, pairing.selectors[other], other, slices[i].driver, d) &&
        (cls, value) == (pairing.selectors[other].deviceClass, d.attributes[pairing.selectors[other].attribute].s);
      assert ReportedAt(cfg, pairing, slices, node, value, i, j, other);
    }
    if IsReported(cfg, pairing, slices, node, cls, value) {
      var i, j, other :| ReportedAt(cfg, pairing, slices, node, value, i, j, other) &&
        pairing.selectors[other].deviceClass == cls;
      var d := slices[i].devices[j];
      assert Reports(cfg, pairing.selectors[other], other, slices[i].driver, d);
      assert (cls, value) in ReportedKeys(cfg, pairing, slices[i].driver, d);
    }
  }

  // ---- the best fit ---------------------------------------------------------

  // What a node has left for a class once claims and reservations are taken off
  ghost function Left(inv: Inventory, live: Pending, cls: string, node: string): int
    requires inv.slices.Some?
  {
    |ListedPlaces(inv, cls, node)| - |HeldPlaces(inv, cls, node)| - |Held(live, cls, node)|
  }

  // Of the admissible nodes with room the one with the least left is taken.
  lemma DevicesBestFit(inv: Inventory, live: Pending, pod: Pod, namespace: string, cluster: Cluster, count: nat,
                       cls: string, e: Event, n: string)
    requires DevicesDecided(inv, live, pod, namespace, cluster, count, cls, "", e) && count > 0 && e.Extended?
    requires Admits(pod, namespace, cluster, n) && HasRoom(inv, live, cls, count, n)
    ensures Left(inv, live, cls, e.node) <= Left(inv, live, cls, n)
  {
    var counts, free :| && IsCount(inv, cls, counts) && IsLessHeld(counts, live, cls, free)
                        && DevicesChosen(pod, namespace, cluster, free, count, cls, "", e)
                        && (e.Extended? ==> e.scanned == CountOn(counts, e.node));
    FreeIsRoom(inv, live, cls, count, n, counts, free);
    FreeIsRoom(inv, live, cls, count, e.node, counts, free);
    FreeIsLeft(inv, live, cls, n, counts, free);
    FreeIsLeft(inv, live, cls, e.node, counts, free);
  }

  lemma FreeIsLeft(inv: Inventory, live: Pending, cls: string, node: string, counts: map<string, int>,
                   free: map<string, int>)
    requires IsCount(inv, cls, counts) && IsLessHeld(counts, live, cls, free) && node in free && free[node] > 0
    requires node != ""
    ensures free[node] == Left(inv, live, cls, node)
  {
    assert CountOn(counts, node) == Unclaimed(inv, cls, node);
    UnclaimedCounted(inv, cls, node);
    assert free[node] == LessHeld(counts[node], |Held(live, cls, node)|);
  }

  // Of the admissible nodes that could have served the request the one with the
  // fewest devices that may serve is taken, where no device has two rails.
  lemma RailsBestFit(cfg: Config, inv: Inventory, live: Pending, pod: Pod, namespace: string, cluster: Cluster,
                     count: nat, oneZone: bool, e: Event, n: string, zone: Option<int>)
    requires RailsDecided(cfg, inv, live, pod, namespace, cluster, count, oneZone, e) && count > 0 && e.Pairs?
    requires RailsApart(cfg) && inv.slices.Some? && n != "" && Admits(pod, namespace, cluster, n)
    requires (oneZone ==> zone.Some?) && |MayPlaces(cfg, inv, live, n, zone)| >= count
    ensures |MayPlaces(cfg, inv, live, e.node, None)| <= |MayPlaces(cfg, inv, live, n, None)|
  {
    RailsGranted(cfg, inv, live, pod, namespace, cluster, count, oneZone, e);
    var slots, free := ScanBehind(cfg, inv, live, pod, namespace, cluster, count, oneZone, e);
    SupplyIsPlaces(cfg, inv, slots, live, n, zone);
    SupplyIsPlaces(cfg, inv, slots, live, n, None);
    SupplyIsPlaces(cfg, inv, slots, live, e.node, None);
    SuppliedIsFeasible(pod, namespace, cluster, slots, live, free, count, oneZone, n, zone);
    assert SlotsOn(free, n) == FreeSlots(SlotsOn(slots, n), Blocked(live, n));
    assert SlotsOn(free, e.node) == FreeSlots(SlotsOn(slots, e.node), Blocked(live, e.node));
  }

  lemma SupplyIsPlaces(cfg: Config, inv: Inventory, slots: Slots, live: Pending, node: string, zone: Option<int>)
    requires inv.slices.Some? && IsScan(cfg, inv, inv.slices.value, slots) && node != "" && RailsApart(cfg)
    ensures |MayPlaces(cfg, inv, live, node, zone)| ==
      Supply(Items(FreeSlots(SlotsOn(slots, node), Blocked(live, node))), zone)
  {
    PlacesBoundSupply(cfg, inv, slots, live, node, zone);
    MayIsMust(cfg, inv, live, node, zone);
  }

  // ---- explicit pairs of a pool ---------------------------------------------

  // The usable, unreserved pairs of a pool on a node, of one NUMA node if given
  ghost function FreeSet(cfg: Config, inv: Inventory, live: Pending, node: string, pool: NodePool, zone: Option<int>)
    : set<nat>
    requires cfg.pairing.Some? && inv.slices.Some?
  {
    set k: nat | k < |pool.pairs| && PairUsable(cfg, cfg.pairing.value, inv.slices.value, node, pool.pairs[k])
                 && ExplicitKey(node, k) !in live && (zone.Some? ==> pool.pairs[k].numa == zone.value)
  }

  ghost function FirstOnes(pool: NodePool, free: seq<nat>, m: nat, zone: Option<int>): set<nat>
    requires m <= |free| && forall k :: 0 <= k < |free| ==> free[k] < |pool.pairs|
  {
    set i: nat | i < m && (zone.Some? ==> pool.pairs[free[i]].numa == zone.value) :: free[i]
  }

  lemma PairItemsSnoc(pool: NodePool, free: seq<nat>, m: nat)
    requires 0 < m <= |free| && free[m - 1] < |pool.pairs|
    ensures PairItems(pool, free[..m]) ==
      PairItems(pool, free[..m - 1]) + [Item(pool.pairs[free[m - 1]].numa, free[m - 1])]
  {
  }

  lemma {:induction false} FirstOnesCounted(pool: NodePool, free: seq<nat>, m: nat, zone: Option<int>)
    requires m <= |free| && Increasing(free) && forall k :: 0 <= k < |free| ==> free[k] < |pool.pairs|
    ensures |FirstOnes(pool, free, m, zone)| == Supply(PairItems(pool, free[..m]), zone)
  {
    if m > 0 {
      FirstOnesCounted(pool, free, m - 1, zone);
      var k := free[m - 1];
      FirstOnesSnoc(pool, free, m, zone);
      PairItemsSnoc(pool, free, m);
      SupplySnoc(PairItems(pool, free[..m - 1]), Item(pool.pairs[k].numa, k), zone);
    } else {
      assert FirstOnes(pool, free, 0, zone) == {};
    }
  }

  lemma {:induction false} FirstOnesSnoc(pool: NodePool, free: seq<nat>, m: nat, zone: Option<int>)
    requires 0 < m <= |free| && Increasing(free) && forall k :: 0 <= k < |free| ==> free[k] < |pool.pairs|
    ensures |FirstOnes(pool, free, m, zone)| == |FirstOnes(pool, free, m - 1, zone)| +
      if zone.Some? && pool.pairs[free[m - 1]].numa != zone.value then 0 else 1
  {
    var before, after, k := FirstOnes(pool, free, m - 1, zone), FirstOnes(pool, free, m, zone), free[m - 1];
    var more := if zone.Some? && pool.pairs[k].numa != zone.value then {} else {k};
    forall x: nat
      ensures x in after <==> x in before + more
    {
      FirstOnesHas(pool, free, m, zone, x);
      FirstOnesHas(pool, free, m - 1, zone, x);
    }
    assert after == before + more;
    FirstOnesHas(pool, free, m - 1, zone, k);
    assert before !! more;
  }

  lemma FirstOnesHas(pool: NodePool, free: seq<nat>, m: nat, zone: Option<int>, x: nat)
    requires m <= |free| && forall k :: 0 <= k < |free| ==> free[k] < |pool.pairs|
    ensures x in FirstOnes(pool, free, m, zone) <==>
      (exists i :: 0 <= i < m && free[i] == x) && (zone.Some? ==> x < |pool.pairs| && pool.pairs[x].numa == zone.value)
  {
  }

  lemma FreeCounted(cfg: Config, inv: Inventory, live: Pending, node: string, pool: NodePool, free: seq<nat>,
                    zone: Option<int>)
    requires cfg.pairing.Some? && inv.slices.Some?
    requires FreePairs(cfg, cfg.pairing.value, inv.slices.value, live, node, pool, free)
    ensures |FreeSet(cfg, inv, live, node, pool, zone)| == Supply(PairItems(pool, free), zone)
  {
    assert forall k :: 0 <= k < |free| ==> free[k] in free;
    FirstOnesCounted(pool, free, |free|, zone);
    assert free[..|free|] == free;
    assert FreeSet(cfg, inv, live, node, pool, zone) == FirstOnes(pool, free, |free|, zone) by {
      forall k: nat
        ensures k in FreeSet(cfg, inv, live, node, pool, zone) <==> k in FirstOnes(pool, free, |free|, zone)
      {
        assert k in free <==> PairFree(cfg, cfg.pairing.value, inv.slices.value, live, node, pool, k);
      }
    }
  }

  // The pairs in order
  lemma {:induction false} InOrder(cfg: Config, inv: Inventory, live: Pending, node: string, pool: NodePool, m: nat)
    returns (free: seq<nat>)
    requires cfg.pairing.Some? && inv.slices.Some? && m <= |pool.pairs|
    ensures Increasing(free)
    ensures forall i: nat :: i in free <==>
      i < m && PairFree(cfg, cfg.pairing.value, inv.slices.value, live, node, pool, i)
  {
    if m == 0 {
      free := [];
    } else {
      free := InOrder(cfg, inv, live, node, pool, m - 1);
      if PairFree(cfg, cfg.pairing.value, inv.slices.value, live, node, pool, m - 1) {
        forall i | 0 <= i < |free|
          ensures free[i] < m - 1
        {
          assert free[i] in free;
        }
        free := free + [m - 1];
      }
    }
  }

  // The node is listed, admissible, and its pool has as many pairs, of one NUMA
  // node if that is asked.
  ghost predicate HasPairs(cfg: Config, inv: Inventory, live: Pending, pod: Pod, namespace: string, cluster: Cluster,
                           count: nat, oneZone: bool, n: Node, zone: Option<int>) {
    && cfg.pairing.Some? && inv.slices.Some? && cluster.nodes.Some? && n in cluster.nodes.value
    && MatchesNodeSelector(pod, n) && MatchesNodeAffinity(pod, n) && Admits(pod, namespace, cluster, n.name)
    && PoolOf(cfg.pairing.value, n.labels).Some? && (oneZone ==> zone.Some?)
    && |FreeSet(cfg, inv, live, n.name, PoolOf(cfg.pairing.value, n.labels).value, zone)| >= count
  }

  // A request for explicit pairs is granted exactly when some node has them, and
  // then on a node that has, with the fewest free pairs.
  lemma PairsGrantedExactly(cfg: Config, inv: Inventory, live: Pending, pod: Pod, namespace: string, cluster: Cluster,
                            count: nat, oneZone: bool, e: Event)
    requires ExplicitDecided(cfg, inv, live, pod, namespace, cluster, count, oneZone, e) && count > 0
    ensures e.Explicit? <==>
      CanFilter(pod, cluster) &&
      exists n, zone :: HasPairs(cfg, inv, live, pod, namespace, cluster, count, oneZone, n, zone)
    ensures e.Explicit? || e.Refused?
  {
    if cfg.pairing.Some? && inv.slices.Some? && cluster.nodes.Some? {
      if n, zone :| HasPairs(cfg, inv, live, pod, namespace, cluster, count, oneZone, n, zone) {
        var free := PairsCanBeGiven(cfg, inv, live, pod, namespace, cluster, count, oneZone, n, zone);
      }
      if e.Explicit? {
        var c, zone := GrantedHasPairs(cfg, inv, live, pod, namespace, cluster, count, oneZone, e);
      }
    }
  }

  lemma PairsCanBeGiven(cfg: Config, inv: Inventory, live: Pending, pod: Pod, namespace: string, cluster: Cluster,
                        count: nat, oneZone: bool, n: Node, zone: Option<int>)
    returns (free: seq<nat>)
    requires HasPairs(cfg, inv, live, pod, namespace, cluster, count, oneZone, n, zone) && count > 0
    ensures CanGive(cfg, cfg.pairing.value, inv, live, pod, namespace, cluster, count, oneZone, n, free)
  {
    var pool := PoolOf(cfg.pairing.value, n.labels).value;
    free := InOrder(cfg, inv, live, n.name, pool, |pool.pairs|);
    FreeCounted(cfg, inv, live, n.name, pool, free, zone);
    var items := PairItems(pool, free);
    if zone.Some? {
      ZoneIsPart(items, zone.value);
      var id := InZone(items, zone.value)[0];
      InZoneMembers(items, zone.value, id);
      assert Eligible(items, zone.value, count);
    }
  }

  lemma GrantedHasPairs(cfg: Config, inv: Inventory, live: Pending, pod: Pod, namespace: string, cluster: Cluster,
                        count: nat, oneZone: bool, e: Event)
    returns (c: Candidate, zone: Option<int>)
    requires ExplicitDecided(cfg, inv, live, pod, namespace, cluster, count, oneZone, e) && count > 0 && e.Explicit?
    ensures c.node.name == e.node && HasPairs(cfg, inv, live, pod, namespace, cluster, count, oneZone, c.node, zone)
    ensures LeastPairs(cfg, cfg.pairing.value, inv, live, pod, namespace, cluster, count, oneZone, c.node, c.available)
    ensures PoolOf(cfg.pairing.value, c.node.labels) == Some(c.pool)
  {
    c :| && c.node.name == e.node && PoolOf(cfg.pairing.value, c.node.labels) == Some(c.pool)
         && LeastPairs(cfg, cfg.pairing.value, inv, live, pod, namespace, cluster, count, oneZone, c.node, c.available)
         && Selected(PairItems(c.pool, c.available), count, oneZone, cfg.maxPairsPerNUMA, e.indices);
    var items := PairItems(c.pool, c.available);
    zone := None;
    if oneZone {
      var z :| Eligible(items, z, count);
      zone := Some(z);
    }
    FreeCounted(cfg, inv, live, c.node.name, c.pool, c.available, zone);
  }

  lemma PairsBestFit(cfg: Config, inv: Inventory, live: Pending, pod: Pod, namespace: string, cluster: Cluster,
                     count: nat, oneZone: bool, e: Event, n: Node, zone: Option<int>)
    returns (own: Node)
    requires ExplicitDecided(cfg, inv, live, pod, namespace, cluster, count, oneZone, e) && count > 0 && e.Explicit?
    requires HasPairs(cfg, inv, live, pod, namespace, cluster, count, oneZone, n, zone)
    ensures own.name == e.node && own in cluster.nodes.value && PoolOf(cfg.pairing.value, own.labels).Some?
    ensures |FreeSet(cfg, inv, live, own.name, PoolOf(cfg.pairing.value, own.labels).value, None)| <=
      |FreeSet(cfg, inv, live, n.name, PoolOf(cfg.pairing.value, n.labels).value, None)|
  {
    var c, z := GrantedHasPairs(cfg, inv, live, pod, namespace, cluster, count, oneZone, e);
    own := c.node;
    var free := PairsCanBeGiven(cfg, inv, live, pod, namespace, cluster, count, oneZone, n, zone);
    FreeCounted(cfg, inv, live, n.name, PoolOf(cfg.pairing.value, n.labels).value, free, None);
    FreeCounted(cfg, inv, live, own.name, c.pool, c.available, None);
  }
}
