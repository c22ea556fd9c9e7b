// ResourceClaimTemplates: the specs built
// for pairs and single devices, what they
// ask of devices, and the store that the
// mutator makes sure they are in.
module Templates {
  import opened Basics
  import opened Sorting
  import opened StringOrder
  import opened Scan

  datatype DeviceRequest = DeviceRequest(name: string, deviceClass: string, selectors: seq<seq<Cel>>)

  // parameters holds the NIC position and rail that the opaque driver
  // parameters are made from.
  datatype ClaimSpec = ClaimSpec(requests: seq<DeviceRequest>, samePCIeRoot: bool, parameters: Option<(nat, int)>)

  function GPUSelectors(rail: int, cfg: Config): seq<seq<Cel>> {
    if 0 <= rail < |cfg.ibRails| then [[AttributeIs("resource.kubernetes.io/pciBusID", cfg.ibRails[rail].gpu)]] else []
  }

  function SinglePairSpec(position: nat, rail: int, cfg: Config): ClaimSpec {
    ClaimSpec(
      [DeviceRequest("gpu", cfg.gpuClass, if cfg.infiniband then GPUSelectors(rail, cfg) else []),
       DeviceRequest("nic", cfg.nicClass, NICSelectors(rail, cfg))],
      !cfg.infiniband,
      Some((position, rail)))
  }

  // BuildSinglePairClaimSpec: the NIC request accepts the devices of the rail
  method BuildSinglePairClaimSpec(position: nat, rail: int, cfg: Config) returns (spec: ClaimSpec)
    ensures spec == SinglePairSpec(position, rail, cfg)
    ensures forall d :: Accepts(spec.requests[1].selectors, d) <==> FitsRail(cfg, rail, d)
  {
    var gpu := if cfg.infiniband then GPUSelectors(rail, cfg) else [];
    var nic := BuildNICSelectors(rail, cfg);
    spec := ClaimSpec([DeviceRequest("gpu", cfg.gpuClass, gpu), DeviceRequest("nic", cfg.nicClass, nic)],
                      !cfg.infiniband, Some((position, rail)));
  }

  // DeviceSelectorKeys: the roles of the pairing, each once, in order
  ghost predicate IsRoles(cfg: Config, roles: seq<string>) {
    && Sorted(roles)
    && forall role :: role in roles <==> cfg.pairing.Some? && role in cfg.pairing.value.selectors
  }

  method DeviceSelectorKeys(cfg: Config) returns (roles: seq<string>)
    ensures IsRoles(cfg, roles)
  {
    roles := [];
    if cfg.pairing.None? {
      return;
    }
    var keys: seq<string> := [];
    var left := cfg.pairing.value.selectors.Keys;
    while left != {}
      invariant left <= cfg.pairing.value.selectors.Keys
      invariant NoRepeats(keys)
      invariant forall role :: role in keys <==> role in cfg.pairing.value.selectors.Keys - left
      decreases left
    {
      var role := AnyOf(left);
      assert role !in keys;
      left := left - {role};
      keys := keys + [role];
    }
    roles := SortStrings(keys);
  }

  // The order leaves no choice.
  lemma RolesUnique(cfg: Config, a: seq<string>, b: seq<string>)
    requires IsRoles(cfg, a) && IsRoles(cfg, b)
    ensures a == b
  {
    SortedUnique(a, b);
  }

  // One request of BuildExplicitPairClaimSpec, pinned to the device of its role
  function PinnedRequest(role: string, devices: map<string, string>, rail: int, pairing: Pairing,
                         cfg: Config): DeviceRequest {
    var attribute := if role in pairing.selectors then pairing.selectors[role].attribute else "";
    var value := if role in devices then devices[role] else "";
    DeviceRequest(role, ClassOf(pairing, role),
                  [[AttributeIs(attribute, value)]] + if role == "nic" then NICSelectors(rail, cfg) else [])
  }

  function PinnedRequests(roles: seq<string>, devices: map<string, string>, rail: int, pairing: Pairing,
                          cfg: Config): seq<DeviceRequest> {
    seq(|roles|, i requires 0 <= i < |roles| => PinnedRequest(roles[i], devices, rail, pairing, cfg))
  }

  function ExplicitPairSpec(position: nat, rail: int, devices: map<string, string>, roles: seq<string>,
                            pairing: Pairing, cfg: Config): ClaimSpec {
    ClaimSpec(PinnedRequests(roles, devices, rail, pairing, cfg), false,
              if "nic" in roles then Some((position, rail)) else None)
  }

  // BuildExplicitPairClaimSpec: one request for each role, in order
  method BuildExplicitPairClaimSpec(position: nat, rail: int, devices: map<string, string>, cfg: Config)
    returns (spec: ClaimSpec, ghost roles: seq<string>)
    requires cfg.pairing.Some?
    ensures IsRoles(cfg, roles) && spec == ExplicitPairSpec(position, rail, devices, roles, cfg.pairing.value, cfg)
    ensures forall k, d :: 0 <= k < |roles| ==>
      (Accepts(spec.requests[k].selectors, d) <==> FitsRole(cfg, cfg.pairing.value, roles[k], devices, rail, d))
  {
    var pairing := cfg.pairing.value;
    var keys := DeviceSelectorKeys(cfg);
    roles := keys;
    var requests: seq<DeviceRequest> := [];
    var parameters: Option<(nat, int)> := None;
    for i := 0 to |keys|
      invariant requests == PinnedRequests(keys[..i], devices, rail, pairing, cfg)
      invariant parameters == if "nic" in keys[..i] then Some((position, rail)) else None
    {
      assert keys[..i + 1] == keys[..i] + [keys[i]];
      var request := BuildPinnedRequest(keys[i], devices, rail, pairing, cfg);
      requests := requests + [request];
      if keys[i] == "nic" {
        parameters := Some((position, rail));
      }
    }
    assert keys[..|keys|] == keys;
    spec := ClaimSpec(requests, false, parameters);
    forall k, d | 0 <= k < |roles|
      ensures Accepts(spec.requests[k].selectors, d) <==> FitsRole(cfg, pairing, roles[k], devices, rail, d)
    {
      PinnedMeaning(cfg, pairing, roles[k], devices, rail, d);
    }
  }

  method BuildPinnedRequest(role: string, devices: map<string, string>, rail: int, pairing: Pairing, cfg: Config)
    returns (request: DeviceRequest)
    requires role in pairing.selectors
    ensures request == PinnedRequest(role, devices, rail, pairing, cfg)
  {
    var sel := pairing.selectors[role];
    var selectors := [[AttributeIs(sel.attribute, if role in devices then devices[role] else "")]];
    if role == "nic" {
      var nic := BuildNICSelectors(rail, cfg);
      selectors := selectors + nic;
    }
    request := DeviceRequest(role, sel.deviceClass, selectors);
  }

  // What the request for a role asks of a device: the value of its pair, and on
  // a NIC what the rail asks
  predicate FitsRole(cfg: Config, pairing: Pairing, role: string, devices: map<string, string>, rail: int, d: Device) {
    && role in pairing.selectors
    && Has(d, pairing.selectors[role].attribute, if role in devices then devices[role] else "")
    && (role == "nic" ==> FitsRail(cfg, rail, d))
  }

  lemma PinnedMeaning(cfg: Config, pairing: Pairing, role: string, devices: map<string, string>, rail: int, d: Device)
    requires role in pairing.selectors
    ensures Accepts(PinnedRequest(role, devices, rail, pairing, cfg).selectors, d) <==>
      FitsRole(cfg, pairing, role, devices, rail, d)
  {
    var pin := [[AttributeIs(pairing.selectors[role].attribute, if role in devices then devices[role] else "")]];
    var rest := if role == "nic" then NICSelectors(rail, cfg) else [];
    AcceptsBoth(pin, rest, d);
    assert Accepts(pin, d) <==> Holds(pin[0][0], d);
    SelectorMeaning(cfg, d, rail);
  }

  lemma AcceptsBoth(a: seq<seq<Cel>>, b: seq<seq<Cel>>, d: Device)
    ensures Accepts(a + b, d) <==> Accepts(a, d) && Accepts(b, d)
  {
    var all := a + b;
    assert forall i :: 0 <= i < |a| ==> all[i] == a[i];
    assert forall i :: 0 <= i < |b| ==> all[|a| + i] == b[i];
    if Accepts(all, d) {
      forall i, j | 0 <= i < |b| && 0 <= j < |b[i]|
        ensures Holds(b[i][j], d)
      {
        assert Holds(all[|a| + i][j], d);
      }
    }
  }

  // BuildExtendedResourceClaimSpec
  function ExtendedSpec(cls: string): ClaimSpec {
    ClaimSpec([DeviceRequest("device", cls, [])], false, None)
  }

  // ---- usable pairs and their claims ----------------------------------------

  // What the NIC selectors ask beyond what the scan of explicit pairs looks at
  predicate RailSuits(cfg: Config, rail: int, d: Device) {
    if cfg.infiniband then
      if 0 <= rail < |cfg.ibRails| then HasRDMA(d) && Has(d, "dra.net/pciAddress", cfg.ibRails[rail].nic)
      else cfg.rdmaRequired ==> Has(d, "dra.net/encapsulation", "infiniband")
    else 0 <= rail < |cfg.rails| ==> HasAddress(d) && cfg.rails[rail] <= IPv4(d)
  }

  // The device a usable pair names for a role is accepted by the request for
  // that role; for the NIC exactly when it also suits the pair's rail: one with
  // the address prefix on Ethernet, with RDMA and the PCI address on InfiniBand,
  // and on a rail that is not configured any device, on InfiniBand with the
  // encapsulation if RDMA is required. The scan of explicit pairs does not look
  // at that.
  lemma UsableDeviceAccepted(cfg: Config, pairing: Pairing, pair: PairMapping, role: string, driver: string, d: Device)
    requires role in pairing.selectors && role in pair.devices
    requires Reports(cfg, pairing.selectors[role], role, driver, d)
    requires d.attributes[pairing.selectors[role].attribute].s == pair.devices[role]
    ensures Accepts(PinnedRequest(role, pair.devices, pair.rail, pairing, cfg).selectors, d) <==>
      (role == "nic" ==> RailSuits(cfg, pair.rail, d))
  {
    PinnedMeaning(cfg, pairing, role, pair.devices, pair.rail, d);
  }

  // Some device of the node is accepted by the request for the role.
  ghost predicate HasAccepted(cfg: Config, pairing: Pairing, slices: seq<Slice>, node: string, pair: PairMapping,
                              role: string) {
    exists i, j :: 0 <= i < |slices| && NodeOf(slices[i]) == node && 0 <= j < |slices[i].devices| &&
      Accepts(PinnedRequest(role, pair.devices, pair.rail, pairing, cfg).selectors, slices[i].devices[j])
  }

  // A NIC is reported under a string, so not under the RDMA flag when that is
  // asked for as well.
  predicate CanReport(cfg: Config, pairing: Pairing, role: string) {
    && role in pairing.selectors
    && !(role == "nic" && cfg.rdmaRequired && pairing.selectors[role].attribute == "dra.net/rdma")
  }

  // What a device reported with a value is known to meet of what the rail asks;
  // rdma tells whether it is known to have RDMA.
  predicate RailGiven(cfg: Config, attribute: string, value: string, rail: int, rdma: bool) {
    if cfg.infiniband then
      if 0 <= rail < |cfg.ibRails| then rdma && attribute == "dra.net/pciAddress" && value == cfg.ibRails[rail].nic
      else cfg.rdmaRequired ==> rdma && attribute == "dra.net/encapsulation" && value == "infiniband"
    else
      && (cfg.rdmaRequired ==> rdma)
      && (0 <= rail < |cfg.rails| ==> attribute == "dra.net/ipv4" && cfg.rails[rail] <= value)
  }

  // Whatever is reported under one role with the value fits the other.
  predicate StandsFor(cfg: Config, pairing: Pairing, other: string, role: string, value: string, rail: int)
    requires other in pairing.selectors && role in pairing.selectors
  {
    && pairing.selectors[other].attribute == pairing.selectors[role].attribute
    && (role == "nic" ==>
          RailGiven(cfg, pairing.selectors[role].attribute, value, rail, other == "nic" && cfg.rdmaRequired))
  }

  // Every role that shares the device class, the role itself among them, stands
  // for it, or never reports a device.
  predicate ClassServes(cfg: Config, pairing: Pairing, role: string, value: string, rail: int)
    requires role in pairing.selectors
  {
    forall other :: other in pairing.selectors && ClassOf(pairing, other) == ClassOf(pairing, role) ==>
      CanReport(cfg, pairing, other) ==> StandsFor(cfg, pairing, other, role, value, rail)
  }

  // As the validation of the configuration asks
  predicate IsValidPair(pairing: Pairing, pair: PairMapping) {
    && pair.devices.Keys == pairing.selectors.Keys
    && forall role :: role in pair.devices ==> pair.devices[role] != ""
  }

  // On every node, each usable pair with the value for the role and on the rail
  // has a device for the role.
  ghost predicate AlwaysClaimable(cfg: Config, pairing: Pairing, role: string, value: string, rail: int) {
    forall slices, node, pair {:trigger PairUsable(cfg, pairing, slices, node, pair)} ::
      && PairUsable(cfg, pairing, slices, node, pair) && IsValidPair(pairing, pair)
      && role in pair.devices && pair.devices[role] == value && pair.rail == rail ==>
      HasAccepted(cfg, pairing, slices, node, pair, role)
  }

  // Every class has a role that can report, without which no pair is usable.
  predicate ClassesReport(cfg: Config, pairing: Pairing) {
    forall role {:trigger ClassReports(cfg, pairing, role)} :: role in pairing.selectors ==>
      ClassReports(cfg, pairing, role)
  }

  predicate ClassReports(cfg: Config, pairing: Pairing, role: string) {
    exists other :: other in pairing.selectors && CanReport(cfg, pairing, other) &&
                    ClassOf(pairing, other) == ClassOf(pairing, role)
  }

  // The scan looks for the device class and the value, the claim for the role.
  // A usable pair has a device for the role, on every node, exactly when every
  // role of the same class stands for it: it names the same attribute, and on
  // the NIC the pair settles what its rail asks.
  lemma UsableIsClaimableExactly(cfg: Config, pairing: Pairing, role: string, value: string, rail: int)
    requires role in pairing.selectors && value != ""
    ensures AlwaysClaimable(cfg, pairing, role, value, rail) <==>
      ClassServes(cfg, pairing, role, value, rail) || !ClassesReport(cfg, pairing)
  {
    if ClassServes(cfg, pairing, role, value, rail) || !ClassesReport(cfg, pairing) {
      ServedIsClaimable(cfg, pairing, role, value, rail);
    } else {
      var other :| other in pairing.selectors && ClassOf(pairing, other) == ClassOf(pairing, role) &&
        CanReport(cfg, pairing, other) && !StandsFor(cfg, pairing, other, role, value, rail);
      var slices, pair := NotClaimable(cfg, pairing, role, other, value, rail);
      assert PairUsable(cfg, pairing, slices, "", pair);
    }
  }

  lemma ServedIsClaimable(cfg: Config, pairing: Pairing, role: string, value: string, rail: int)
    requires role in pairing.selectors
    requires ClassServes(cfg, pairing, role, value, rail) || !ClassesReport(cfg, pairing)
    ensures AlwaysClaimable(cfg, pairing, role, value, rail)
  {
    forall slices, node, pair | PairUsable(cfg, pairing, slices, node, pair) && IsValidPair(pairing, pair)
      && role in pair.devices && pair.devices[role] == value && pair.rail == rail
      ensures HasAccepted(cfg, pairing, slices, node, pair, role)
    {
      UsableIsServed(cfg, pairing, slices, node, pair, role);
    }
  }

  lemma UsableIsServed(cfg: Config, pairing: Pairing, slices: seq<Slice>, node: string, pair: PairMapping,
                       role: string)
    requires PairUsable(cfg, pairing, slices, node, pair) && IsValidPair(pairing, pair) && role in pairing.selectors
    requires ClassServes(cfg, pairing, role, pair.devices[role], pair.rail) || !ClassesReport(cfg, pairing)
    ensures HasAccepted(cfg, pairing, slices, node, pair, role)
  {
    UsableMeansReporting(cfg, pairing, slices, node, pair);
    UsableIsClaimable(cfg, pairing, slices, node, pair, role);
  }

  // What the scan found for a role of a usable pair
  lemma UsableIsReported(cfg: Config, pairing: Pairing, slices: seq<Slice>, node: string, pair: PairMapping,
                         role: string)
    returns (i: nat, j: nat, other: string)
    requires PairUsable(cfg, pairing, slices, node, pair) && role in pairing.selectors && role in pair.devices
    ensures i < |slices| && NodeOf(slices[i]) == node && j < |slices[i].devices|
    ensures CanReport(cfg, pairing, other) && ClassOf(pairing, other) == ClassOf(pairing, role)
    ensures Reports(cfg, pairing.selectors[other], other, slices[i].driver, slices[i].devices[j])
    ensures Has(slices[i].devices[j], pairing.selectors[other].attribute, pair.devices[role])
  {
    var key := (ClassOf(pairing, role), pair.devices[role]);
    assert RoleUsable(cfg, pairing, slices, node, pair, role);
    i, j :| i < |slices| && NodeOf(slices[i]) == node && j < |slices[i].devices| &&
      key in ReportedKeys(cfg, pairing, slices[i].driver, slices[i].devices[j]);
    other :| other in pairing.selectors
      && Reports(cfg, pairing.selectors[other], other, slices[i].driver, slices[i].devices[j])
      && key == (pairing.selectors[other].deviceClass,
                 slices[i].devices[j].attributes[pairing.selectors[other].attribute].s);
  }

  lemma UsableMeansReporting(cfg: Config, pairing: Pairing, slices: seq<Slice>, node: string, pair: PairMapping)
    requires PairUsable(cfg, pairing, slices, node, pair) && IsValidPair(pairing, pair)
    ensures ClassesReport(cfg, pairing)
  {
    forall role | role in pairing.selectors
      ensures ClassReports(cfg, pairing, role)
    {
      var i, j, other := UsableIsReported(cfg, pairing, slices, node, pair, role);
    }
  }

  lemma UsableIsClaimable(cfg: Config, pairing: Pairing, slices: seq<Slice>, node: string, pair: PairMapping,
                          role: string)
    requires PairUsable(cfg, pairing, slices, node, pair) && role in pairing.selectors && role in pair.devices
    requires ClassServes(cfg, pairing, role, pair.devices[role], pair.rail)
    ensures HasAccepted(cfg, pairing, slices, node, pair, role)
  {
    var i, j, other := UsableIsReported(cfg, pairing, slices, node, pair, role);
    assert StandsFor(cfg, pairing, other, role, pair.devices[role], pair.rail);
    PinnedMeaning(cfg, pairing, role, pair.devices, pair.rail, slices[i].devices[j]);
  }

  // No other role of the pairing has the class of the role.
  predicate OwnClass(pairing: Pairing, role: string) {
    forall other :: other in pairing.selectors && ClassOf(pairing, other) == ClassOf(pairing, role) ==> other == role
  }

  // With a class of its own a role has its device on the node, reported under
  // it. It is accepted, unless it is the NIC and does not suit the pair's rail.
  lemma UsableRoleHasDevice(cfg: Config, pairing: Pairing, slices: seq<Slice>, node: string, pair: PairMapping,
                            role: string)
    returns (i: nat, j: nat)
    requires PairUsable(cfg, pairing, slices, node, pair) && role in pairing.selectors && role in pair.devices
    requires OwnClass(pairing, role)
    ensures i < |slices| && NodeOf(slices[i]) == node && j < |slices[i].devices|
    ensures Reports(cfg, pairing.selectors[role], role, slices[i].driver, slices[i].devices[j])
    ensures Has(slices[i].devices[j], pairing.selectors[role].attribute, pair.devices[role])
    ensures Accepts(PinnedRequest(role, pair.devices, pair.rail, pairing, cfg).selectors, slices[i].devices[j]) <==>
      (role == "nic" ==> RailSuits(cfg, pair.rail, slices[i].devices[j]))
  {
    var other;
    i, j, other := UsableIsReported(cfg, pairing, slices, node, pair, role);
    UsableDeviceAccepted(cfg, pairing, pair, role, slices[i].driver, slices[i].devices[j]);
  }

  // ---- usable pairs without a device ----------------------------------------

  // A device that reports under a role with the value, and has no more than that
  function Reporter(cfg: Config, pairing: Pairing, role: string, value: string): Device
    requires role in pairing.selectors
  {
    var base: map<string, Attribute> := if role == "nic" then map["dra.net/ifName" := BoolValue(true)] else map[];
    var all := if role == "nic" && cfg.rdmaRequired then base["dra.net/rdma" := BoolValue(true)] else base;
    Device("", all[pairing.selectors[role].attribute := StringValue(value)])
  }

  function ReporterSlice(cfg: Config, pairing: Pairing, role: string, value: string): Slice
    requires role in pairing.selectors
  {
    Slice(DriverName(pairing.selectors[role]), None, [Reporter(cfg, pairing, role, value)])
  }

  lemma ReporterReports(cfg: Config, pairing: Pairing, role: string, value: string)
    requires CanReport(cfg, pairing, role)
    ensures Reports(cfg, pairing.selectors[role], role, DriverName(pairing.selectors[role]),
                    Reporter(cfg, pairing, role, value))
    ensures (ClassOf(pairing, role), value) in
      ReportedKeys(cfg, pairing, DriverName(pairing.selectors[role]), Reporter(cfg, pairing, role, value))
  {
    var d := Reporter(cfg, pairing, role, value);
    assert d.attributes[pairing.selectors[role].attribute].s == value;
  }

  // It is accepted for a role only when its own stands for that.
  lemma ReporterNotAccepted(cfg: Config, pairing: Pairing, other: string, role: string, value: string,
                            pair: PairMapping)
    requires other in pairing.selectors && role in pairing.selectors && role in pair.devices
    requires pair.devices[role] == value ==> !StandsFor(cfg, pairing, other, role, value, pair.rail)
    ensures !Accepts(PinnedRequest(role, pair.devices, pair.rail, pairing, cfg).selectors,
                     Reporter(cfg, pairing, other, value))
  {
    PinnedMeaning(cfg, pairing, role, pair.devices, pair.rail, Reporter(cfg, pairing, other, value));
  }

  lemma {:induction false} InSomeOrder(names: set<string>) returns (xs: seq<string>)
    ensures forall x :: x in xs <==> x in names
  {
    if names == {} {
      xs := [];
    } else {
      var x :| x in names;
      xs := InSomeOrder(names - {x});
      xs := xs + [x];
    }
  }

  // The pair with the value for the role and a longer one for every other
  function FilledPair(pairing: Pairing, role: string, value: string, rail: int): PairMapping {
    PairMapping(map r | r in pairing.selectors :: if r == role then value else value + "x", rail, 0)
  }

  // A node on which the listed roles report the longer value, and one more role
  // the value
  function FilledSlices(cfg: Config, pairing: Pairing, reporting: seq<string>, other: string, value: string)
    : seq<Slice>
    requires other in pairing.selectors && forall r :: r in reporting ==> r in pairing.selectors
  {
    seq(|reporting|, i requires 0 <= i < |reporting| => ReporterSlice(cfg, pairing, reporting[i], value + "x"))
      + [ReporterSlice(cfg, pairing, other, value)]
  }

  lemma FilledIsAvailable(cfg: Config, pairing: Pairing, reporting: seq<string>, other: string, value: string,
                          role: string, rail: int, r: string)
    requires other in pairing.selectors && CanReport(cfg, pairing, other)
    requires forall s :: s in reporting <==> s in pairing.selectors && CanReport(cfg, pairing, s)
    requires role in pairing.selectors && ClassOf(pairing, other) == ClassOf(pairing, role)
    requires ClassesReport(cfg, pairing) && r in pairing.selectors
    ensures Available(cfg, pairing, FilledSlices(cfg, pairing, reporting, other, value), "",
                      (ClassOf(pairing, r), FilledPair(pairing, role, value, rail).devices[r]))
  {
    var slices := FilledSlices(cfg, pairing, reporting, other, value);
    if r == role {
      ReporterReports(cfg, pairing, other, value);
      assert slices[|reporting|] == ReporterSlice(cfg, pairing, other, value);
      assert slices[|reporting|].devices[0] == Reporter(cfg, pairing, other, value);
    } else {
      assert ClassReports(cfg, pairing, r);
      var s :| s in pairing.selectors && CanReport(cfg, pairing, s) && ClassOf(pairing, s) == ClassOf(pairing, r);
      var i :| 0 <= i < |reporting| && reporting[i] == s;
      ReporterReports(cfg, pairing, s, value + "x");
      assert slices[i] == ReporterSlice(cfg, pairing, s, value + "x");
      assert slices[i].devices[0] == Reporter(cfg, pairing, s, value + "x");
    }
  }

  lemma FilledNotAccepted(cfg: Config, pairing: Pairing, reporting: seq<string>, other: string, value: string,
                          role: string, rail: int)
    requires other in pairing.selectors && role in pairing.selectors
    requires forall s :: s in reporting ==> s in pairing.selectors
    requires !StandsFor(cfg, pairing, other, role, value, rail)
    ensures !HasAccepted(cfg, pairing, FilledSlices(cfg, pairing, reporting, other, value), "",
                         FilledPair(pairing, role, value, rail), role)
  {
    var slices, pair := FilledSlices(cfg, pairing, reporting, other, value), FilledPair(pairing, role, value, rail);
    forall i, j | 0 <= i < |slices| && 0 <= j < |slices[i].devices|
      ensures !Accepts(PinnedRequest(role, pair.devices, pair.rail, pairing, cfg).selectors, slices[i].devices[j])
    {
      if i < |reporting| {
        ReporterNotAccepted(cfg, pairing, reporting[i], role, value + "x", pair);
      } else {
        ReporterNotAccepted(cfg, pairing, other, role, value, pair);
      }
    }
  }

  // A valid, usable pair without a device for a role that another, of the same
  // class, does not stand for
  lemma NotClaimable(cfg: Config, pairing: Pairing, role: string, other: string, value: string, rail: int)
    returns (slices: seq<Slice>, pair: PairMapping)
    requires role in pairing.selectors && value != "" && ClassesReport(cfg, pairing)
    requires CanReport(cfg, pairing, other) && ClassOf(pairing, other) == ClassOf(pairing, role)
    requires !StandsFor(cfg, pairing, other, role, value, rail)
    ensures IsValidPair(pairing, pair) && pair.devices[role] == value && pair.rail == rail
    ensures PairUsable(cfg, pairing, slices, "", pair)
    ensures !HasAccepted(cfg, pairing, slices, "", pair, role)
  {
    var reporting := InSomeOrder(set r | r in pairing.selectors && CanReport(cfg, pairing, r));
    pair := FilledPair(pairing, role, value, rail);
    slices := FilledSlices(cfg, pairing, reporting, other, value);
    assert IsValidPair(pairing, pair);
    forall r | r in pair.devices
      ensures RoleUsable(cfg, pairing, slices, "", pair, r)
    {
      FilledIsAvailable(cfg, pairing, reporting, other, value, role, rail, r);
    }
    FilledNotAccepted(cfg, pairing, reporting, other, value, role, rail);
  }

  // The NIC of a usable pair with an address of another rail: the claim accepts
  // no device at all of the node.
  lemma UsablePairWithoutDevice(cfg: Config, node: string)
    requires !cfg.infiniband && !cfg.rdmaRequired && cfg.rails == ["10.0."]
    ensures var pairing := Pairing(map["nic" := DeviceSelector("nics", "dra.net", "dra.net/mac")], "pool", []);
      var d := Device("eth0", map["dra.net/mac" := StringValue("a"), "dra.net/ifName" := StringValue("eth0"),
                                  "dra.net/ipv4" := StringValue("10.1.0.1")]);
      var slices, pair := [Slice("dra.net", Some(node), [d])], PairMapping(map["nic" := "a"], 0, 0);
      && PairUsable(cfg, pairing, slices, node, pair)
      && forall i, j :: 0 <= i < |slices| && 0 <= j < |slices[i].devices| ==>
           !Accepts(PinnedRequest("nic", pair.devices, pair.rail, pairing, cfg).selectors, slices[i].devices[j])
  {
    var pairing := Pairing(map["nic" := DeviceSelector("nics", "dra.net", "dra.net/mac")], "pool", []);
    var d := Device("eth0", map["dra.net/mac" := StringValue("a"), "dra.net/ifName" := StringValue("eth0"),
                                "dra.net/ipv4" := StringValue("10.1.0.1")]);
    var slices, pair := [Slice("dra.net", Some(node), [d])], PairMapping(map["nic" := "a"], 0, 0);
    assert Reports(cfg, pairing.selectors["nic"], "nic", "dra.net", d);
    assert ("nics", "a") in ReportedKeys(cfg, pairing, slices[0].driver, slices[0].devices[0]);
    UsableDeviceAccepted(cfg, pairing, pair, "nic", "dra.net", d);
    assert "10.0."[3] != "10.1.0.1"[3];
  }

  // Two roles of one class: the devices of the node report the values under the
  // second only, and none is accepted for the first.
  lemma SharedClassWithoutDevice(cfg: Config, node: string)
    ensures var pairing := Pairing(map["gpu" := DeviceSelector("c", "d", "d/uuid"),
                                       "aux" := DeviceSelector("c", "d", "d/serial")], "pool", []);
      var x, y := Device("0", map["d/serial" := StringValue("x")]), Device("1", map["d/serial" := StringValue("y")]);
      var slices, pair := [Slice("d", Some(node), [x, y])], PairMapping(map["gpu" := "x", "aux" := "y"], 0, 0);
      && IsValidPair(pairing, pair) && PairUsable(cfg, pairing, slices, node, pair)
      && !HasAccepted(cfg, pairing, slices, node, pair, "gpu")
  {
    var pairing := Pairing(map["gpu" := DeviceSelector("c", "d", "d/uuid"),
                               "aux" := DeviceSelector("c", "d", "d/serial")], "pool", []);
    var x, y := Device("0", map["d/serial" := StringValue("x")]), Device("1", map["d/serial" := StringValue("y")]);
    var slices, pair := [Slice("d", Some(node), [x, y])], PairMapping(map["gpu" := "x", "aux" := "y"], 0, 0);
    assert IsValidPair(pairing, pair);
    PinnedMeaning(cfg, pairing, "gpu", pair.devices, pair.rail, x);
    PinnedMeaning(cfg, pairing, "gpu", pair.devices, pair.rail, y);
    assert !HasAccepted(cfg, pairing, slices, node, pair, "gpu");
    ReportsSerial(cfg, pairing, x);
    ReportsSerial(cfg, pairing, y);
    assert slices[0].devices[0] == x && slices[0].devices[1] == y;
    assert Available(cfg, pairing, slices, node, ("c", "x"));
    assert Available(cfg, pairing, slices, node, ("c", "y"));
  }

  lemma ReportsSerial(cfg: Config, pairing: Pairing, d: Device)
    requires "aux" in pairing.selectors && pairing.selectors["aux"] == DeviceSelector("c", "d", "d/serial")
    requires "d/serial" in d.attributes && d.attributes["d/serial"].StringValue?
    ensures ("c", d.attributes["d/serial"].s) in ReportedKeys(cfg, pairing, "d", d)
  {
    assert Reports(cfg, pairing.selectors["aux"], "aux", "d", d);
  }

  // ---- the store ------------------------------------------------------------

  class TemplateStore {
    // by namespace and name
    var templates: map<(string, string), ClaimSpec>

    constructor ()
      ensures templates == map[]
    {
      templates := map[];
    }

    // ensureClaimTemplate: creates the template, or accepts one of that name
    // with the same spec.
    method Ensure(namespace: string, name: string, spec: ClaimSpec) returns (ok: bool)
      modifies this
      ensures ok <==> (namespace, name) in old(templates) ==> old(templates)[(namespace, name)] == spec
      ensures templates == if ok then old(templates)[(namespace, name) := spec] else old(templates)
    {
      if (namespace, name) in templates {
        ok := templates[(namespace, name)] == spec;
      } else {
        templates := templates[(namespace, name) := spec];
        ok := true;
      }
    }

    // The templates of one pod, in turn; stops at the first that diverges, with
    // those before it added. So it succeeds exactly when none diverges from the
    // store or from each other.
    method EnsureAll(namespace: string, names: seq<string>, specs: seq<ClaimSpec>) returns (ok: bool)
      requires |names| == |specs|
      modifies this
      ensures ok <==> Agree(old(templates), namespace, names, specs)
      ensures ok ==> templates == With(old(templates), namespace, names, specs)
      ensures !ok ==> exists n: nat :: StopsAt(old(templates), namespace, names, specs, n) &&
                                       templates == With(old(templates), namespace, names[..n], specs[..n])
      ensures Extends(old(templates), templates)
    {
      for i := 0 to |names|
        invariant Agree(old(templates), namespace, names[..i], specs[..i])
        invariant templates == With(old(templates), namespace, names[..i], specs[..i])
        invariant Extends(old(templates), templates)
      {
        AgreeNext(old(templates), namespace, names[..i], specs[..i], names[i], specs[i]);
        assert names[..i + 1] == names[..i] + [names[i]] && specs[..i + 1] == specs[..i] + [specs[i]];
        ok := Ensure(namespace, names[i], specs[i]);
        if !ok {
          assert StopsAt(old(templates), namespace, names, specs, i);
          return;
        }
      }
      assert names[..|names|] == names && specs[..|specs|] == specs;
      ok := true;
    }
  }

  type Store = map<(string, string), ClaimSpec>

  // Templates are never changed or removed.
  ghost predicate Extends(before: Store, after: Store) {
    forall k :: k in before ==> k in after && after[k] == before[k]
  }

  // Each named template exists with its spec.
  ghost predicate Backed(templates: Store, namespace: string, names: seq<string>, specs: seq<ClaimSpec>) {
    && |names| == |specs|
    && forall i :: 0 <= i < |names| ==>
         (namespace, names[i]) in templates && templates[(namespace, names[i])] == specs[i]
  }

  // No template of these names has another spec, in the store or among them.
  ghost predicate Agree(templates: Store, namespace: string, names: seq<string>, specs: seq<ClaimSpec>) {
    && |names| == |specs|
    && (forall i :: 0 <= i < |names| && (namespace, names[i]) in templates ==>
          templates[(namespace, names[i])] == specs[i])
    && forall i, j :: 0 <= i < j < |names| && names[i] == names[j] ==> specs[i] == specs[j]
  }

  // The n-th template is the first that diverges.
  ghost predicate StopsAt(templates: Store, namespace: string, names: seq<string>, specs: seq<ClaimSpec>, n: nat) {
    && n < |names| == |specs|
    && Agree(templates, namespace, names[..n], specs[..n])
    && !Agree(templates, namespace, names[..n + 1], specs[..n + 1])
  }

  // The store with the templates added
  function With(templates: Store, namespace: string, names: seq<string>, specs: seq<ClaimSpec>): Store
    requires |names| == |specs|
  {
    if names == [] then templates
    else
      var n := |names| - 1;
      With(templates, namespace, names[..n], specs[..n])[(namespace, names[n]) := specs[n]]
  }

  // The added templates are there, and nothing else is new.
  ghost predicate Joined(templates: Store, after: Store, namespace: string, names: seq<string>, specs: seq<ClaimSpec>)
    requires |names| == |specs|
  {
    && Extends(templates, after) && Backed(after, namespace, names, specs)
    && forall k :: k in after ==> k in templates || exists i :: 0 <= i < |names| && k == (namespace, names[i])
  }

  lemma {:induction false} WithHolds(templates: Store, namespace: string, names: seq<string>, specs: seq<ClaimSpec>)
    requires Agree(templates, namespace, names, specs)
    ensures Joined(templates, With(templates, namespace, names, specs), namespace, names, specs)
  {
    if names != [] {
      var n := |names| - 1;
      WithHolds(templates, namespace, names[..n], specs[..n]);
      JoinedOneMore(templates, With(templates, namespace, names[..n], specs[..n]), namespace, names, specs);
    }
  }

  lemma JoinedOneMore(templates: Store, before: Store, namespace: string, names: seq<string>, specs: seq<ClaimSpec>)
    requires names != [] && Agree(templates, namespace, names, specs)
    requires Joined(templates, before, namespace, names[..|names| - 1], specs[..|names| - 1])
    ensures Joined(templates, before[(namespace, names[|names| - 1]) := specs[|names| - 1]], namespace, names, specs)
  {
    var n := |names| - 1;
    var key := (namespace, names[n]);
    if key in before && key !in templates {
      var i :| 0 <= i < n && key == (namespace, names[..n][i]);
      assert specs[..n][i] == specs[i] == specs[n];
    }
    assert key in before ==> before[key] == specs[n];
    var after := before[key := specs[n]];
    forall k | k in after && k !in templates
      ensures exists i :: 0 <= i < |names| && k == (namespace, names[i])
    {
      if k != key {
        var i :| 0 <= i < n && k == (namespace, names[..n][i]);
        assert k == (namespace, names[i]);
      } else {
        assert k == (namespace, names[n]);
      }
    }
    forall i | 0 <= i < |names|
      ensures (namespace, names[i]) in after && after[(namespace, names[i])] == specs[i]
    {
      if i < n {
        assert names[..n][i] == names[i] && specs[..n][i] == specs[i];
      }
    }
  }

  // A store accepts a spec under a name that has no other.
  predicate Takes(templates: Store, namespace: string, name: string, spec: ClaimSpec) {
    (namespace, name) in templates ==> templates[(namespace, name)] == spec
  }

  lemma TakesAfter(templates: Store, namespace: string, names: seq<string>, specs: seq<ClaimSpec>, name: string,
                   spec: ClaimSpec)
    requires Agree(templates, namespace, names, specs)
    ensures Takes(With(templates, namespace, names, specs), namespace, name, spec) <==>
      && Takes(templates, namespace, name, spec)
      && forall j :: 0 <= j < |names| && names[j] == name ==> specs[j] == spec
  {
    WithHolds(templates, namespace, names, specs);
    var after := With(templates, namespace, names, specs);
    if (namespace, name) in after && (namespace, name) !in templates {
      var j :| 0 <= j < |names| && (namespace, name) == (namespace, names[j]);
      assert after[(namespace, names[j])] == specs[j];
    }
  }

  lemma AgreeSnoc(templates: Store, namespace: string, names: seq<string>, specs: seq<ClaimSpec>, name: string,
                  spec: ClaimSpec)
    requires |names| == |specs|
    ensures Agree(templates, namespace, names + [name], specs + [spec]) <==>
      && Agree(templates, namespace, names, specs) && Takes(templates, namespace, name, spec)
      && forall j :: 0 <= j < |names| && names[j] == name ==> specs[j] == spec
    ensures With(templates, namespace, names + [name], specs + [spec]) ==
      With(templates, namespace, names, specs)[(namespace, name) := spec]
  {
    var n, ns, ss := |names|, names + [name], specs + [spec];
    assert ns[..n] == names && ss[..n] == specs;
    assert forall j :: 0 <= j < n ==> ns[j] == names[j] && ss[j] == specs[j];
    assert ns[n] == name && ss[n] == spec;
    if Agree(templates, namespace, ns, ss) {
      assert Agree(templates, namespace, ns[..n], ss[..n]);
    }
  }

  // One more template agrees exactly when the store so far accepts it.
  lemma AgreeNext(templates: Store, namespace: string, names: seq<string>, specs: seq<ClaimSpec>, name: string,
                  spec: ClaimSpec)
    requires |names| == |specs|
    ensures Agree(templates, namespace, names + [name], specs + [spec]) <==>
      && Agree(templates, namespace, names, specs)
      && Takes(With(templates, namespace, names, specs), namespace, name, spec)
    ensures With(templates, namespace, names + [name], specs + [spec]) ==
      With(templates, namespace, names, specs)[(namespace, name) := spec]
  {
    AgreeSnoc(templates, namespace, names, specs, name, spec);
    if Agree(templates, namespace, names, specs) {
      TakesAfter(templates, namespace, names, specs, name, spec);
    }
  }

  // Two lists one after the other agree exactly when the first does and the
  // second does with the store that the first leaves.
  ghost predicate InTurn(templates: Store, namespace: string, a: seq<string>, sa: seq<ClaimSpec>,
                         b: seq<string>, sb: seq<ClaimSpec>, ab: seq<string>, sab: seq<ClaimSpec>)
    requires |a| == |sa| && |b| == |sb| && |ab| == |sab|
  {
    var mid := With(templates, namespace, a, sa);
    && (Agree(templates, namespace, ab, sab) <==> Agree(templates, namespace, a, sa) && Agree(mid, namespace, b, sb))
    && With(templates, namespace, ab, sab) == With(mid, namespace, b, sb)
  }

  lemma InTurnNext(templates: Store, namespace: string, a: seq<string>, sa: seq<ClaimSpec>, b: seq<string>,
                   sb: seq<ClaimSpec>, ab: seq<string>, sab: seq<ClaimSpec>, name: string, spec: ClaimSpec)
    requires |a| == |sa| && |b| == |sb| && |ab| == |sab|
    requires InTurn(templates, namespace, a, sa, b, sb, ab, sab)
    ensures InTurn(templates, namespace, a, sa, b + [name], sb + [spec], ab + [name], sab + [spec])
  {
    AgreeNext(templates, namespace, ab, sab, name, spec);
    AgreeNext(With(templates, namespace, a, sa), namespace, b, sb, name, spec);
  }

  lemma {:induction false} AgreeConcat(templates: Store, namespace: string, a: seq<string>, sa: seq<ClaimSpec>,
                                       b: seq<string>, sb: seq<ClaimSpec>)
    requires |a| == |sa| && |b| == |sb|
    ensures InTurn(templates, namespace, a, sa, b, sb, a + b, sa + sb)
    decreases |b|
  {
    if b == [] {
      assert a + b == a && sa + sb == sa;
    } else {
      var n := |b| - 1;
      AgreeConcat(templates, namespace, a, sa, b[..n], sb[..n]);
      InTurnNext(templates, namespace, a, sa, b[..n], sb[..n], a + b[..n], sa + sb[..n], b[n], sb[n]);
      SplitLast(a, b);
      SplitLast(sa, sb);
    }
  }

  lemma SplitLast<T>(a: seq<T>, b: seq<T>)
    requires b != []
    ensures b[..|b| - 1] + [b[|b| - 1]] == b
    ensures a + b[..|b| - 1] + [b[|b| - 1]] == a + b
  {
  }
}
