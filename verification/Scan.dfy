// What resource slices offer, and the device selectors that claims carry for it.
module Scan {
  import opened Basics

  datatype Attribute = StringValue(s: string) | BoolValue(b: bool) | IntValue(i: int)

  datatype Device = Device(name: string, attributes: map<string, Attribute>)

  datatype Slice = Slice(driver: string, nodeName: Option<string>, devices: seq<Device>)

  // One device of an allocated ResourceClaim
  datatype Allotted = Allotted(driver: string, pool: string, device: string)

  // A snapshot of the API server; None where the list failed
  datatype Inventory = Inventory(slices: Option<seq<Slice>>, allotted: Option<seq<Allotted>>)

  datatype IBRail = IBRail(gpu: string, nic: string)

  datatype DeviceSelector = DeviceSelector(deviceClass: string, driver: string, attribute: string)

  datatype PairMapping = PairMapping(devices: map<string, string>, rail: int, numa: int)

  datatype NodePool = NodePool(poolLabel: string, pairs: seq<PairMapping>)

  datatype Pairing = Pairing(selectors: map<string, DeviceSelector>, labelKey: string, pools: seq<NodePool>)

  datatype Config = Config(
    maxPairsPerNUMA: int, maxPairsPerNode: int, disableNUMAPacking: bool,
    infiniband: bool, rdmaRequired: bool, rails: seq<string>, ibRails: seq<IBRail>,
    explicitMode: bool, pairing: Option<Pairing>, gpuClass: string, nicClass: string)

  // A free rail on a node
  datatype Slot = Slot(rail: nat, zone: int)

  // ---- device attributes ----------------------------------------------------

  // The string value of an attribute, "" when it is missing or no string
  function Text(d: Device, name: string): string {
    if name in d.attributes && d.attributes[name].StringValue? then d.attributes[name].s else ""
  }

  function IPv4(d: Device): string { Text(d, "dra.net/ipv4") }

  function PCIAddress(d: Device): string { Text(d, "dra.net/pciAddress") }

  function Zone(d: Device): int {
    if "dra.net/numaNode" in d.attributes && d.attributes["dra.net/numaNode"].IntValue?
    then d.attributes["dra.net/numaNode"].i else -1
  }

  predicate HasRDMA(d: Device) {
    "dra.net/rdma" in d.attributes && d.attributes["dra.net/rdma"] == BoolValue(true)
  }

  // ---- which rail the scan may give a device --------------------------------

  // The rail a map from names to indices keeps for a name listed several times
  predicate LastWith(names: seq<string>, r: nat) {
    r < |names| && forall k :: r < k < |names| ==> names[k] != names[r]
  }

  // On Ethernet: r is a rail whose prefix the address has. Several rails may
  // qualify; map order then decides.
  predicate EthernetRail(cfg: Config, d: Device, r: nat) {
    && IPv4(d) != ""
    && (cfg.rdmaRequired ==> HasRDMA(d))
    && LastWith(cfg.rails, r)
    && cfg.rails[r] <= IPv4(d)
  }

  function NICs(rails: seq<IBRail>): seq<string> {
    seq(|rails|, i requires 0 <= i < |rails| => rails[i].nic)
  }

  predicate InfiniBandRail(cfg: Config, d: Device, r: nat) {
    && PCIAddress(d) != ""
    && LastWith(NICs(cfg.ibRails), r)
    && NICs(cfg.ibRails)[r] == PCIAddress(d)
    && (cfg.rdmaRequired ==> HasRDMA(d))
  }

  predicate GivesRail(cfg: Config, d: Device, r: nat) {
    if cfg.infiniband then InfiniBandRail(cfg, d, r) else EthernetRail(cfg, d, r)
  }

  // ---- the scan -------------------------------------------------------------

  function NodeOf(s: Slice): string {
    if s.nodeName.Some? then s.nodeName.value else ""
  }

  // In use by a claim; only InfiniBand asks, since Ethernet devices lose their
  // address while in use.
  predicate Consumed(cfg: Config, inv: Inventory, node: string, d: Device) {
    cfg.infiniband && inv.allotted.Some? &&
    exists i :: 0 <= i < |inv.allotted.value| &&
      inv.allotted.value[i] == Allotted("dra.net", inv.allotted.value[i].pool, inv.allotted.value[i].device) &&
      inv.allotted.value[i].pool + ":" + inv.allotted.value[i].device == node + ":" + d.name
  }

  // The scan offers d on a node as slot s.
  ghost predicate Offers(cfg: Config, inv: Inventory, node: string, d: Device, s: Slot) {
    !Consumed(cfg, inv, node, d) && GivesRail(cfg, d, s.rail) && s.zone == Zone(d)
  }

  // Network devices of a node, in the order the slices list them
  function DevicesOn(slices: seq<Slice>, node: string): seq<Device> {
    if slices == [] then []
    else
      var last := slices[|slices| - 1];
      DevicesOn(slices[..|slices| - 1], node) +
      if last.driver == "dra.net" && NodeOf(last) == node then last.devices else []
  }

  type Slots = map<string, seq<Slot>>

  function SlotsOn(slots: Slots, node: string): seq<Slot> {
    if node in slots then slots[node] else []
  }

  ghost predicate CanOffer(cfg: Config, inv: Inventory, node: string, d: Device) {
    exists s :: Offers(cfg, inv, node, d, s)
  }

  // One slot for each device that can be offered, in order, and no other slot
  ghost predicate Lists(cfg: Config, inv: Inventory, node: string, devices: seq<Device>, slots: seq<Slot>) {
    if devices == [] then slots == []
    else
      var n := |devices| - 1;
      if CanOffer(cfg, inv, node, devices[n]) then
        && slots != []
        && Offers(cfg, inv, node, devices[n], slots[|slots| - 1])
        && Lists(cfg, inv, node, devices[..n], slots[..|slots| - 1])
      else Lists(cfg, inv, node, devices[..n], slots)
  }

  ghost predicate IsScan(cfg: Config, inv: Inventory, slices: seq<Slice>, slots: Slots) {
    && "" !in slots
    && forall n :: n != "" ==> Lists(cfg, inv, n, DevicesOn(slices, n), SlotsOn(slots, n))
  }

  lemma {:induction false} ListsConcat(cfg: Config, inv: Inventory, node: string, da: seq<Device>, sa: seq<Slot>,
                                       db: seq<Device>, sb: seq<Slot>)
    requires Lists(cfg, inv, node, da, sa) && Lists(cfg, inv, node, db, sb)
    ensures Lists(cfg, inv, node, da + db, sa + sb)
  {
    if db == [] {
      assert da + db == da && sa + sb == sa;
    } else {
      var n := |db| - 1;
      assert (da + db)[..|da| + n] == da + db[..n];
      if CanOffer(cfg, inv, node, db[n]) {
        var m := |sb| - 1;
        assert (sa + sb)[..|sa| + m] == sa + sb[..m];
        ListsConcat(cfg, inv, node, da, sa, db[..n], sb[..m]);
      } else {
        ListsConcat(cfg, inv, node, da, sa, db[..n], sb);
      }
    }
  }

  lemma {:induction false} ListedIsOffered(cfg: Config, inv: Inventory, node: string, devices: seq<Device>,
                                           slots: seq<Slot>, s: Slot)
    requires Lists(cfg, inv, node, devices, slots) && s in slots
    ensures exists d :: d in devices && Offers(cfg, inv, node, d, s)
  {
    var n := |devices| - 1;
    if CanOffer(cfg, inv, node, devices[n]) {
      var m := |slots| - 1;
      if s != slots[m] {
        assert s in slots[..m];
        ListedIsOffered(cfg, inv, node, devices[..n], slots[..m], s);
      }
    } else {
      ListedIsOffered(cfg, inv, node, devices[..n], slots, s);
    }
  }

  // prefixToRail and nicToRail
  method IndexRails(names: seq<string>) returns (index: map<string, nat>)
    ensures forall n :: n in index <==> n in names
    ensures forall n :: n in index ==> LastWith(names, index[n]) && names[index[n]] == n
  {
    index := map[];
    for i := 0 to |names|
      invariant forall n :: n in index <==> n in names[..i]
      invariant forall n :: n in index ==> LastWith(names[..i], index[n]) && names[index[n]] == n
    {
      assert names[..i + 1] == names[..i] + [names[i]];
      index := index[names[i] := i];
    }
    assert names[..|names|] == names;
  }

  // The first prefix of the address that the map range happens to visit
  method MatchPrefix(index: map<string, nat>, address: string) returns (rail: Option<nat>)
    ensures rail.Some? ==> exists p :: p in index && p <= address && index[p] == rail.value
    ensures rail.None? ==> forall p :: p in index ==> !(p <= address)
  {
    var left := index.Keys;
    while left != {}
      invariant left <= index.Keys
      invariant forall p :: p in index && p !in left ==> !(p <= address)
      decreases left
    {
      var p := AnyOf(left);
      left := left - {p};
      if p <= address {
        return Some(index[p]);
      }
    }
    rail := None;
  }

  // One device of the loops of scanEthernetSlots and scanIBSlots
  method Examine(cfg: Config, inv: Inventory, index: map<string, nat>, node: string, d: Device)
    returns (slot: Option<Slot>)
    requires var names := if cfg.infiniband then NICs(cfg.ibRails) else cfg.rails;
      && (forall n :: n in index <==> n in names)
      && (forall n :: n in index ==> LastWith(names, index[n]) && names[index[n]] == n)
    ensures slot.Some? ==> Offers(cfg, inv, node, d, slot.value)
    ensures slot.None? ==> forall r :: !Offers(cfg, inv, node, d, Slot(r, Zone(d)))
  {
    var names := if cfg.infiniband then NICs(cfg.ibRails) else cfg.rails;
    var address := if cfg.infiniband then PCIAddress(d) else IPv4(d);
    if address == "" {
      return None;
    }
    if cfg.rdmaRequired && !HasRDMA(d) {
      return None;
    }
    if cfg.infiniband {
      if address !in index || Consumed(cfg, inv, node, d) {
        forall r: nat | LastWith(names, r) && names[r] == address
          ensures address in index
        {
        }
        return None;
      }
      slot := Some(Slot(index[address], Zone(d)));
    } else {
      var rail := MatchPrefix(index, address);
      if rail.None? {
        forall r: nat | LastWith(names, r)
          ensures !(names[r] <= address)
        {
          assert names[r] in index;
        }
        return None;
      }
      slot := Some(Slot(rail.value, Zone(d)));
    }
  }

  lemma SkipSlice(cfg: Config, inv: Inventory, slices: seq<Slice>, i: nat, slots: Slots)
    requires i < |slices| && IsScan(cfg, inv, slices[..i], slots)
    requires slices[i].driver != "dra.net" || NodeOf(slices[i]) == ""
    ensures IsScan(cfg, inv, slices[..i + 1], slots)
  {
    assert slices[..i + 1][..i] == slices[..i];
    forall n | n != ""
      ensures Lists(cfg, inv, n, DevicesOn(slices[..i + 1], n), SlotsOn(slots, n))
    {
      assert DevicesOn(slices[..i + 1], n) == DevicesOn(slices[..i], n) + [] == DevicesOn(slices[..i], n);
    }
  }

  lemma TakeSlice(cfg: Config, inv: Inventory, slices: seq<Slice>, i: nat, slots: Slots, found: seq<Slot>)
    requires i < |slices| && IsScan(cfg, inv, slices[..i], slots)
    requires slices[i].driver == "dra.net" && NodeOf(slices[i]) != ""
    requires Lists(cfg, inv, NodeOf(slices[i]), slices[i].devices, found)
    ensures IsScan(cfg, inv, slices[..i + 1], slots[NodeOf(slices[i]) := SlotsOn(slots, NodeOf(slices[i])) + found])
  {
    var node, more := NodeOf(slices[i]), slots[NodeOf(slices[i]) := SlotsOn(slots, NodeOf(slices[i])) + found];
    assert slices[..i + 1][..i] == slices[..i];
    forall n | n != ""
      ensures Lists(cfg, inv, n, DevicesOn(slices[..i + 1], n), SlotsOn(more, n))
    {
      if n == node {
        ListsConcat(cfg, inv, node, DevicesOn(slices[..i], node), SlotsOn(slots, node), slices[i].devices, found);
      } else {
        assert DevicesOn(slices[..i + 1], n) == DevicesOn(slices[..i], n) + [] == DevicesOn(slices[..i], n);
      }
    }
  }

  // scanAvailableSlots: scanEthernetSlots or scanIBSlots
  method ScanAvailableSlots(cfg: Config, inv: Inventory) returns (r: Result<Slots>)
    ensures r.Ok? <==> inv.slices.Some?
    ensures r.Ok? ==> IsScan(cfg, inv, inv.slices.value, r.value)
  {
    if inv.slices.None? {
      return Err("failed to list resource slices");
    }
    var slices := inv.slices.value;
    var index := IndexRails(if cfg.infiniband then NICs(cfg.ibRails) else cfg.rails);
    var slots: Slots := map[];
    for i := 0 to |slices|
      invariant IsScan(cfg, inv, slices[..i], slots)
    {
      var slice := slices[i];
      var node := NodeOf(slice);
      if slice.driver != "dra.net" || node == "" {
        SkipSlice(cfg, inv, slices, i, slots);
        continue;
      }
      var found := ScanDevices(cfg, inv, index, node, slice.devices);
      TakeSlice(cfg, inv, slices, i, slots, found);
      slots := slots[node := SlotsOn(slots, node) + found];
    }
    assert slices[..|slices|] == slices;
    r := Ok(slots);
  }

  method ScanDevices(cfg: Config, inv: Inventory, index: map<string, nat>, node: string, devices: seq<Device>)
    returns (found: seq<Slot>)
    requires var names := if cfg.infiniband then NICs(cfg.ibRails) else cfg.rails;
      && (forall n :: n in index <==> n in names)
      && (forall n :: n in index ==> LastWith(names, index[n]) && names[index[n]] == n)
    ensures Lists(cfg, inv, node, devices, found)
  {
    found := [];
    for i := 0 to |devices|
      invariant Lists(cfg, inv, node, devices[..i], found)
    {
      assert devices[..i + 1][..i] == devices[..i];
      var slot := Examine(cfg, inv, index, node, devices[i]);
      if slot.Some? {
        assert (found + [slot.value])[..|found|] == found;
        found := found + [slot.value];
      }
    }
    assert devices[..|devices|] == devices;
  }

  // ---- explicit pairing -----------------------------------------------------

  // GetNodePoolMapping: the first pool named by the node's label
  function PoolOf(pairing: Pairing, labels: map<string, string>): (pool: Option<NodePool>)
    ensures pool.Some? <==>
      pairing.labelKey in labels && exists i :: IsFirstPool(pairing.pools, labels[pairing.labelKey], i)
    ensures pool.Some? ==>
      exists i :: IsFirstPool(pairing.pools, labels[pairing.labelKey], i) && pool.value == pairing.pools[i]
  {
    if pairing.labelKey !in labels then None else FirstPool(pairing.pools, labels[pairing.labelKey])
  }

  predicate IsFirstPool(pools: seq<NodePool>, name: string, i: int) {
    && 0 <= i < |pools| && pools[i].poolLabel == name
    && forall j :: 0 <= j < i ==> pools[j].poolLabel != name
  }

  function FirstPool(pools: seq<NodePool>, name: string): (pool: Option<NodePool>)
    ensures pool.Some? <==> exists i :: IsFirstPool(pools, name, i)
    ensures pool.Some? ==> exists i :: IsFirstPool(pools, name, i) && pool.value == pools[i]
  {
    if pools == [] then None
    else if pools[0].poolLabel == name then
      assert IsFirstPool(pools, name, 0);
      Some(pools[0])
    else
      var rest := FirstPool(pools[1..], name);
      assert forall i :: IsFirstPool(pools, name, i) ==> IsFirstPool(pools[1..], name, i - 1);
      assert forall i :: IsFirstPool(pools[1..], name, i) ==> IsFirstPool(pools, name, i + 1);
      rest
  }

  function DriverName(sel: DeviceSelector): string {
    if sel.driver != "" then sel.driver else sel.deviceClass
  }

  // A device of a slice reports itself under a role of the pairing.
  predicate Reports(cfg: Config, sel: DeviceSelector, role: string, driver: string, d: Device) {
    && driver == DriverName(sel)
    && sel.attribute in d.attributes
    && d.attributes[sel.attribute].StringValue?
    && (role == "nic" ==> "dra.net/ifName" in d.attributes && (cfg.rdmaRequired ==> HasRDMA(d)))
  }

  // Device class and value under which a device is available
  function ReportedKeys(cfg: Config, pairing: Pairing, driver: string, d: Device): set<(string, string)> {
    set role | role in pairing.selectors && Reports(cfg, pairing.selectors[role], role, driver, d)
      :: (pairing.selectors[role].deviceClass, d.attributes[pairing.selectors[role].attribute].s)
  }

  ghost predicate Available(cfg: Config, pairing: Pairing, slices: seq<Slice>, node: string, key: (string, string)) {
    exists i, j :: 0 <= i < |slices| && NodeOf(slices[i]) == node && 0 <= j < |slices[i].devices| &&
      key in ReportedKeys(cfg, pairing, slices[i].driver, slices[i].devices[j])
  }

  function ClassOf(pairing: Pairing, role: string): string {
    if role in pairing.selectors then pairing.selectors[role].deviceClass else ""
  }

  // Every device of the pair is on the node and not in use.
  ghost predicate PairUsable(cfg: Config, pairing: Pairing, slices: seq<Slice>, node: string, pair: PairMapping) {
    forall role {:trigger RoleUsable(cfg, pairing, slices, node, pair, role)} :: role in pair.devices ==>
      RoleUsable(cfg, pairing, slices, node, pair, role)
  }

  ghost predicate RoleUsable(cfg: Config, pairing: Pairing, slices: seq<Slice>, node: string, pair: PairMapping,
                             role: string) {
    role in pair.devices && Available(cfg, pairing, slices, node, (ClassOf(pairing, role), pair.devices[role]))
  }

  method AvailableKeys(cfg: Config, pairing: Pairing, slices: seq<Slice>, node: string)
    returns (keys: set<(string, string)>)
    ensures forall k :: k in keys <==> Available(cfg, pairing, slices, node, k)
  {
    keys := {};
    for i := 0 to |slices|
      invariant forall k :: k in keys <==> Available(cfg, pairing, slices[..i], node, k)
    {
      var slice := slices[i];
      var before := keys;
      if NodeOf(slice) == node {
        for j := 0 to |slice.devices|
          invariant forall k :: k in keys <==>
            k in before || exists m :: 0 <= m < j && k in ReportedKeys(cfg, pairing, slice.driver, slice.devices[m])
        {
          keys := keys + ReportedKeys(cfg, pairing, slice.driver, slice.devices[j]);
        }
      }
      forall k
        ensures k in keys <==> Available(cfg, pairing, slices[..i + 1], node, k)
      {
        AvailableExtend(cfg, pairing, slices[..i], slice, node, k);
        assert slices[..i + 1] == slices[..i] + [slice];
      }
    }
    assert slices[..|slices|] == slices;
  }

  lemma AvailableExtend(cfg: Config, pairing: Pairing, slices: seq<Slice>, slice: Slice, node: string,
                        k: (string, string))
    ensures Available(cfg, pairing, slices + [slice], node, k) <==>
      Available(cfg, pairing, slices, node, k) ||
      (NodeOf(slice) == node &&
       exists m :: 0 <= m < |slice.devices| && k in ReportedKeys(cfg, pairing, slice.driver, slice.devices[m]))
  {
    var all := slices + [slice];
    if Available(cfg, pairing, slices, node, k) {
      var i, j :| 0 <= i < |slices| && NodeOf(slices[i]) == node && 0 <= j < |slices[i].devices| &&
        k in ReportedKeys(cfg, pairing, slices[i].driver, slices[i].devices[j]);
      assert all[i] == slices[i];
      assert k in ReportedKeys(cfg, pairing, all[i].driver, all[i].devices[j]);
    }
    if NodeOf(slice) == node &&
      exists m :: 0 <= m < |slice.devices| && k in ReportedKeys(cfg, pairing, slice.driver, slice.devices[m])
    {
      var m :| 0 <= m < |slice.devices| && k in ReportedKeys(cfg, pairing, slice.driver, slice.devices[m]);
      assert all[|slices|] == slice;
      assert k in ReportedKeys(cfg, pairing, all[|slices|].driver, all[|slices|].devices[m]);
    }
  }

  ghost predicate Increasing(xs: seq<nat>) {
    forall i, j :: 0 <= i < j < |xs| ==> xs[i] < xs[j]
  }

  // scanExplicitAvailability: the indices of the usable pairs, in order
  method ScanExplicitAvailability(cfg: Config, pairing: Pairing, inv: Inventory, pool: NodePool, node: string)
    returns (r: Result<seq<nat>>)
    ensures r.Ok? <==> inv.slices.Some?
    ensures r.Ok? ==> Increasing(r.value)
    ensures r.Ok? ==> forall i: nat :: i in r.value <==>
      i < |pool.pairs| && PairUsable(cfg, pairing, inv.slices.value, node, pool.pairs[i])
  {
    if inv.slices.None? {
      return Err("failed to list resource slices");
    }
    var keys := AvailableKeys(cfg, pairing, inv.slices.value, node);
    var usable: seq<nat> := [];
    for i := 0 to |pool.pairs|
      invariant Increasing(usable) && forall k :: 0 <= k < |usable| ==> usable[k] < i
      invariant forall k: nat :: k in usable <==>
        k < i && PairUsable(cfg, pairing, inv.slices.value, node, pool.pairs[k])
    {
      var devices := pool.pairs[i].devices;
      forall role | role in devices
        ensures RoleUsable(cfg, pairing, inv.slices.value, node, pool.pairs[i], role) <==>
          (ClassOf(pairing, role), devices[role]) in keys
      {
      }
      if forall role :: role in devices ==> (ClassOf(pairing, role), devices[role]) in keys {
        usable := usable + [i];
      }
    }
    r := Ok(usable);
  }

  // ---- counting devices of a class ------------------------------------------

  function CountDevices(slices: seq<Slice>, cls: string, node: string): nat {
    if slices == [] then 0
    else
      var last := slices[|slices| - 1];
      CountDevices(slices[..|slices| - 1], cls, node) +
      if last.driver == cls && NodeOf(last) == node then |last.devices| else 0
  }

  function CountAllotted(allotted: seq<Allotted>, cls: string, node: string): nat {
    if allotted == [] then 0
    else
      var last := allotted[|allotted| - 1];
      CountAllotted(allotted[..|allotted| - 1], cls, node) + if last.driver == cls && last.pool == node then 1 else 0
  }

  function CountOn(counts: map<string, int>, node: string): int {
    if node in counts then counts[node] else 0
  }

  // Listed devices minus devices in use. It may be negative, for a pool that is
  // no node, for instance. A node is in the map when anything was counted there.
  ghost predicate IsCount(inv: Inventory, cls: string, counts: map<string, int>) {
    inv.slices.Some? &&
    var used := if inv.allotted.Some? then inv.allotted.value else [];
    forall n ::
      var listed := if n == "" then 0 else CountDevices(inv.slices.value, cls, n);
      && CountOn(counts, n) == listed - CountAllotted(used, cls, n)
      && (n in counts <==> listed > 0 || CountAllotted(used, cls, n) > 0)
  }

  method ScanAvailableDevices(inv: Inventory, cls: string) returns (r: Result<map<string, int>>)
    ensures r.Ok? <==> inv.slices.Some?
    ensures r.Ok? ==> IsCount(inv, cls, r.value)
  {
    if inv.slices.None? {
      return Err("failed to list resource slices");
    }
    var counts := CountListed(inv.slices.value, cls);
    if inv.allotted.Some? {
      counts := SubtractAllotted(counts, inv.allotted.value, cls);
    }
    r := Ok(counts);
  }

  method CountListed(slices: seq<Slice>, cls: string) returns (counts: map<string, int>)
    ensures forall n :: CountOn(counts, n) == if n == "" then 0 else CountDevices(slices, cls, n)
    ensures forall n :: n in counts <==> CountOn(counts, n) > 0
  {
    counts := map[];
    for i := 0 to |slices|
      invariant forall n :: CountOn(counts, n) == if n == "" then 0 else CountDevices(slices[..i], cls, n)
      invariant forall n :: n in counts <==> CountOn(counts, n) > 0
    {
      var slice := slices[i];
      assert slices[..i + 1][..i] == slices[..i];
      var node := NodeOf(slice);
      if slice.driver != cls || node == "" {
        continue;
      }
      ghost var before := counts;
      for j := 0 to |slice.devices|
        invariant forall n :: CountOn(counts, n) == CountOn(before, n) + (if n == node then j else 0)
        invariant forall n :: n in counts <==> CountOn(counts, n) > 0
      {
        counts := counts[node := CountOn(counts, node) + 1];
      }
    }
    assert slices[..|slices|] == slices;
  }

  method SubtractAllotted(listed: map<string, int>, used: seq<Allotted>, cls: string) returns (counts: map<string, int>)
    ensures forall n :: CountOn(counts, n) == CountOn(listed, n) - CountAllotted(used, cls, n)
    ensures forall n :: n in counts <==> n in listed || CountAllotted(used, cls, n) > 0
  {
    counts := listed;
    for i := 0 to |used|
      invariant forall n :: CountOn(counts, n) == CountOn(listed, n) - CountAllotted(used[..i], cls, n)
      invariant forall n :: n in counts <==> n in listed || CountAllotted(used[..i], cls, n) > 0
    {
      assert used[..i + 1][..i] == used[..i];
      if used[i].driver == cls {
        counts := counts[used[i].pool := CountOn(counts, used[i].pool) - 1];
      }
    }
    assert used[..|used|] == used;
  }

  // ---- device selectors of a claim ------------------------------------------

  // The conjuncts that the builders put into CEL expressions
  datatype Cel =
    | RDMATrue
    | HasIPv4
    | IPv4StartsWith(prefix: string)
    | AttributeIs(name: string, value: string)

  // A conjunct on a missing attribute is an evaluation error; the device is
  // then not selected.
  predicate Holds(c: Cel, d: Device) {
    match c
    case RDMATrue => HasRDMA(d)
    case HasIPv4 => "dra.net/ipv4" in d.attributes
    case IPv4StartsWith(p) =>
      "dra.net/ipv4" in d.attributes && d.attributes["dra.net/ipv4"].StringValue? && p <= d.attributes["dra.net/ipv4"].s
    case AttributeIs(name, value) => name in d.attributes && d.attributes[name] == StringValue(value)
  }

  // A claim request selects a device that satisfies all its selectors.
  predicate Accepts(selectors: seq<seq<Cel>>, d: Device) {
    forall i, j :: 0 <= i < |selectors| && 0 <= j < |selectors[i]| ==> Holds(selectors[i][j], d)
  }

  function NICSelectors(rail: int, cfg: Config): seq<seq<Cel>> {
    if cfg.infiniband then
      if 0 <= rail < |cfg.ibRails| then [[RDMATrue, AttributeIs("dra.net/pciAddress", cfg.ibRails[rail].nic)]]
      else if cfg.rdmaRequired then [[RDMATrue, AttributeIs("dra.net/encapsulation", "infiniband")]]
      else []
    else if 0 <= rail < |cfg.rails| then
      if cfg.rdmaRequired then [[RDMATrue, HasIPv4, IPv4StartsWith(cfg.rails[rail])]]
      else [[HasIPv4, IPv4StartsWith(cfg.rails[rail])]]
    else if cfg.rdmaRequired then [[RDMATrue]]
    else []
  }

  // What the selectors for a rail ask of a device
  predicate FitsRail(cfg: Config, rail: int, d: Device) {
    if cfg.infiniband then
      if 0 <= rail < |cfg.ibRails| then HasRDMA(d) && Has(d, "dra.net/pciAddress", cfg.ibRails[rail].nic)
      else cfg.rdmaRequired ==> HasRDMA(d) && Has(d, "dra.net/encapsulation", "infiniband")
    else
      && (cfg.rdmaRequired ==> HasRDMA(d))
      && (0 <= rail < |cfg.rails| ==> HasAddress(d) && cfg.rails[rail] <= IPv4(d))
  }

  predicate Has(d: Device, name: string, value: string) {
    name in d.attributes && d.attributes[name] == StringValue(value)
  }

  predicate HasAddress(d: Device) {
    "dra.net/ipv4" in d.attributes && d.attributes["dra.net/ipv4"].StringValue?
  }

  // The selectors, for every rail and device, configured or not
  lemma SelectorMeaning(cfg: Config, d: Device, rail: int)
    ensures Accepts(NICSelectors(rail, cfg), d) <==> FitsRail(cfg, rail, d)
  {
    var selectors := NICSelectors(rail, cfg);
    if Accepts(selectors, d) && selectors != [] {
      assert |selectors| == 1;
      assert forall j :: 0 <= j < |selectors[0]| ==> Holds(selectors[0][j], d);
      assert Holds(selectors[0][0], d) && Holds(selectors[0][|selectors[0]| - 1], d);
    }
  }

  // buildNICSelectors, with buildIBNICSelectors
  method BuildNICSelectors(rail: int, cfg: Config) returns (selectors: seq<seq<Cel>>)
    ensures forall d :: Accepts(selectors, d) <==> FitsRail(cfg, rail, d)
    ensures selectors == NICSelectors(rail, cfg)
  {
    selectors := [];
    if cfg.infiniband {
      if 0 <= rail < |cfg.ibRails| {
        selectors := selectors + [[RDMATrue, AttributeIs("dra.net/pciAddress", cfg.ibRails[rail].nic)]];
      } else if cfg.rdmaRequired {
        selectors := selectors + [[RDMATrue, AttributeIs("dra.net/encapsulation", "infiniband")]];
      }
    } else if 0 <= rail < |cfg.rails| {
      if cfg.rdmaRequired {
        selectors := selectors + [[RDMATrue, HasIPv4, IPv4StartsWith(cfg.rails[rail])]];
      } else {
        selectors := selectors + [[HasIPv4, IPv4StartsWith(cfg.rails[rail])]];
      }
    } else if cfg.rdmaRequired {
      selectors := selectors + [[RDMATrue]];
    }
    assert selectors == NICSelectors(rail, cfg);
    forall d
      ensures Accepts(selectors, d) <==> FitsRail(cfg, rail, d)
    {
      SelectorMeaning(cfg, d, rail);
    }
  }

  // ---- scan and selector agree ----------------------------------------------

  function RailCount(cfg: Config): nat {
    if cfg.infiniband then |cfg.ibRails| else |cfg.rails|
  }

  // The scan can give a device a rail exactly when the selector built for that
  // rail accepts the device, and never has a choice.
  ghost predicate ScanAgreesWithSelectors(cfg: Config) {
    && (forall d: Device, r: nat :: r < RailCount(cfg) ==> (GivesRail(cfg, d, r) <==> Accepts(NICSelectors(r, cfg), d)))
    && (forall d: Device, r: nat, s: nat :: GivesRail(cfg, d, r) && GivesRail(cfg, d, s) ==> r == s)
  }

  predicate PrefixFree(names: seq<string>) {
    forall i, j :: 0 <= i < |names| && 0 <= j < |names| && i != j ==> !(names[i] <= names[j])
  }

  // What a configuration must satisfy for the two to agree
  predicate RailsWellFormed(cfg: Config) {
    if cfg.infiniband then
      && (cfg.rdmaRequired || cfg.ibRails == [])
      && (forall i :: 0 <= i < |cfg.ibRails| ==> cfg.ibRails[i].nic != "")
      && (forall i, j :: 0 <= i < j < |cfg.ibRails| ==> cfg.ibRails[i].nic != cfg.ibRails[j].nic)
    else
      && (forall i :: 0 <= i < |cfg.rails| ==> cfg.rails[i] != "")
      && PrefixFree(cfg.rails)
  }

  lemma PrefixesOfOneAddress(a: string, b: string, address: string)
    requires a <= address && b <= address
    ensures a <= b || b <= a
  {
  }

  lemma WellFormedAgrees(cfg: Config)
    requires RailsWellFormed(cfg)
    ensures ScanAgreesWithSelectors(cfg)
  {
    forall d: Device, r: nat | r < RailCount(cfg)
      ensures GivesRail(cfg, d, r) <==> Accepts(NICSelectors(r, cfg), d)
    {
      SelectorMeaning(cfg, d, r);
    }
    forall d: Device, r: nat, s: nat | GivesRail(cfg, d, r) && GivesRail(cfg, d, s)
      ensures r == s
    {
      if !cfg.infiniband {
        PrefixesOfOneAddress(cfg.rails[r], cfg.rails[s], IPv4(d));
      }
    }
  }

  function Ethernet(address: string): Device {
    Device("", map["dra.net/ipv4" := StringValue(address), "dra.net/rdma" := BoolValue(true)])
  }

  lemma EthernetAgreementForcesForm(cfg: Config)
    requires !cfg.infiniband && ScanAgreesWithSelectors(cfg)
    ensures RailsWellFormed(cfg)
  {
    forall i | 0 <= i < |cfg.rails|
      ensures cfg.rails[i] != ""
    {
      SelectorMeaning(cfg, Ethernet(""), i);
      assert GivesRail(cfg, Ethernet(""), i) <==> Accepts(NICSelectors(i, cfg), Ethernet(""));
    }
    forall i, j | 0 <= i < |cfg.rails| && 0 <= j < |cfg.rails| && i != j
      ensures !(cfg.rails[i] <= cfg.rails[j])
    {
      var d := Ethernet(cfg.rails[j]);
      SelectorMeaning(cfg, d, i);
      SelectorMeaning(cfg, d, j);
      assert GivesRail(cfg, d, i) <==> Accepts(NICSelectors(i, cfg), d);
      assert GivesRail(cfg, d, j) <==> Accepts(NICSelectors(j, cfg), d);
    }
  }

  function InfiniBand(address: string, rdma: bool): Device {
    Device("", map["dra.net/pciAddress" := StringValue(address), "dra.net/rdma" := BoolValue(rdma)])
  }

  lemma InfiniBandAgreementForcesForm(cfg: Config)
    requires cfg.infiniband && ScanAgreesWithSelectors(cfg)
    ensures RailsWellFormed(cfg)
  {
    forall i | 0 <= i < |cfg.ibRails|
      ensures cfg.ibRails[i].nic != "" && LastWith(NICs(cfg.ibRails), i)
    {
      var d := InfiniBand(cfg.ibRails[i].nic, true);
      SelectorMeaning(cfg, d, i);
      assert GivesRail(cfg, d, i) <==> Accepts(NICSelectors(i, cfg), d);
    }
    forall i, j | 0 <= i < j < |cfg.ibRails|
      ensures cfg.ibRails[i].nic != cfg.ibRails[j].nic
    {
      assert LastWith(NICs(cfg.ibRails), i);
      assert NICs(cfg.ibRails)[j] != NICs(cfg.ibRails)[i];
    }
    if cfg.ibRails != [] {
      assert LastWith(NICs(cfg.ibRails), 0);
      var d := InfiniBand(cfg.ibRails[0].nic, false);
      SelectorMeaning(cfg, d, 0);
      assert GivesRail(cfg, d, 0) <==> Accepts(NICSelectors(0, cfg), d);
    }
  }

  // Exactly the well-formed configurations make scan and selectors agree: on
  // Ethernet non-empty prefixes none of which begins another; on InfiniBand
  // distinct non-empty addresses and, as soon as there is a rail, rdmaRequired,
  // because the InfiniBand selector asks for RDMA whatever the setting is.
  lemma AgreementCondition(cfg: Config)
    ensures ScanAgreesWithSelectors(cfg) <==> RailsWellFormed(cfg)
  {
    if RailsWellFormed(cfg) {
      WellFormedAgrees(cfg);
    }
    if ScanAgreesWithSelectors(cfg) {
      if cfg.infiniband {
        InfiniBandAgreementForcesForm(cfg);
      } else {
        EthernetAgreementForcesForm(cfg);
      }
    }
  }

  // ---- different rails ------------------------------------------------------

  // What keeps the rails apart: prefixes none of which begins another, or
  // addresses that differ
  predicate RailsApart(cfg: Config) {
    if cfg.infiniband then
      forall i, j :: 0 <= i < j < |cfg.ibRails| ==> cfg.ibRails[i].nic != cfg.ibRails[j].nic
    else PrefixFree(cfg.rails)
  }

  lemma ApartSelectors(cfg: Config, r: nat, s: nat, d: Device)
    requires RailsApart(cfg) && r < RailCount(cfg) && s < RailCount(cfg) && r != s
    ensures !(Accepts(NICSelectors(r, cfg), d) && Accepts(NICSelectors(s, cfg), d))
  {
    SelectorMeaning(cfg, d, r);
    SelectorMeaning(cfg, d, s);
    if !cfg.infiniband && cfg.rails[r] <= IPv4(d) && cfg.rails[s] <= IPv4(d) {
      PrefixesOfOneAddress(cfg.rails[r], cfg.rails[s], IPv4(d));
    }
  }

  lemma CommonDevice(cfg: Config) returns (r: nat, s: nat, d: Device)
    requires !RailsApart(cfg)
    ensures r < RailCount(cfg) && s < RailCount(cfg) && r != s
    ensures Accepts(NICSelectors(r, cfg), d) && Accepts(NICSelectors(s, cfg), d)
  {
    if cfg.infiniband {
      r, s :| r < s < |cfg.ibRails| && cfg.ibRails[r].nic == cfg.ibRails[s].nic;
      d := InfiniBand(cfg.ibRails[r].nic, true);
    } else {
      r, s :| r < |cfg.rails| && s < |cfg.rails| && r != s && cfg.rails[r] <= cfg.rails[s];
      d := Ethernet(cfg.rails[s]);
    }
    SelectorMeaning(cfg, d, r);
    SelectorMeaning(cfg, d, s);
  }

  // Every rail the scan offers on a node is one that a claim for that rail can
  // be satisfied with there.
  lemma OfferedRailIsClaimable(cfg: Config, inv: Inventory, slots: Slots, node: string, s: Slot)
    requires inv.slices.Some? && IsScan(cfg, inv, inv.slices.value, slots) && RailsWellFormed(cfg)
    requires s in SlotsOn(slots, node)
    ensures exists d :: (d in DevicesOn(inv.slices.value, node) && !Consumed(cfg, inv, node, d) &&
                         Accepts(NICSelectors(s.rail, cfg), d) && Zone(d) == s.zone)
  {
    WellFormedAgrees(cfg);
    ListedIsOffered(cfg, inv, node, DevicesOn(inv.slices.value, node), SlotsOn(slots, node), s);
    var d :| d in DevicesOn(inv.slices.value, node) && Offers(cfg, inv, node, d, s);
    assert GivesRail(cfg, d, s.rail);
    assert s.rail < RailCount(cfg);
  }
}
