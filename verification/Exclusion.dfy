// What reservations are for: claims find their devices, and those of two pods never compete for one.
module Exclusion {
  import opened Pods
  import opened Scan
  import opened Ledger
  import opened Templates
  import opened Mutator
  import Allocator

  // Two grants on one node, the second within the time-to-live of the first
  ghost predicate CloseGrants(events: seq<Event>, ttl: nat, a: nat, b: nat) {
    && IsRun(events, ttl) && a < b < |events|
    && !events[a].Refused? && !events[b].Refused?
    && events[a].node == events[b].node
    && events[b].start - events[a].stamp <= ttl
  }

  // ---- rails ----------------------------------------------------------------

  // The requests of a template made for one rail
  predicate GPUAccepted(spec: ClaimSpec, d: Device) {
    |spec.requests| == 2 && Accepts(spec.requests[0].selectors, d)
  }

  predicate NICAccepted(spec: ClaimSpec, d: Device) {
    |spec.requests| == 2 && Accepts(spec.requests[1].selectors, d)
  }

  // On InfiniBand the GPU is pinned to the address configured for the rail.
  predicate GPUsApart(cfg: Config) {
    cfg.infiniband && forall i, j :: 0 <= i < j < |cfg.ibRails| ==> cfg.ibRails[i].gpu != cfg.ibRails[j].gpu
  }

  ghost predicate NoCommonNIC(first: ClaimSpec, second: ClaimSpec) {
    forall d :: !(NICAccepted(first, d) && NICAccepted(second, d))
  }

  ghost predicate NoCommonGPU(first: ClaimSpec, second: ClaimSpec) {
    forall d :: !(GPUAccepted(first, d) && GPUAccepted(second, d))
  }

  // Templates for different rails accept no common network device exactly when
  // the configured rails are apart.
  lemma RailsAreExclusive(cfg: Config, p: nat, q: nat)
    ensures RailsApart(cfg) <==>
      forall r: nat, s: nat :: r < RailCount(cfg) && s < RailCount(cfg) && r != s ==>
        NoCommonNIC(SinglePairSpec(p, r, cfg), SinglePairSpec(q, s, cfg))
  {
    if RailsApart(cfg) {
      forall r: nat, s: nat | r < RailCount(cfg) && s < RailCount(cfg) && r != s
        ensures NoCommonNIC(SinglePairSpec(p, r, cfg), SinglePairSpec(q, s, cfg))
      {
        RailTemplatesApart(cfg, p, r, q, s);
      }
    } else {
      var r, s, d := CommonDevice(cfg);
      assert NICAccepted(SinglePairSpec(p, r, cfg), d) && NICAccepted(SinglePairSpec(q, s, cfg), d);
      assert !NoCommonNIC(SinglePairSpec(p, r, cfg), SinglePairSpec(q, s, cfg));
    }
  }

  lemma RailTemplatesApart(cfg: Config, p: nat, r: nat, q: nat, s: nat)
    requires r < RailCount(cfg) && s < RailCount(cfg) && r != s
    ensures RailsApart(cfg) ==> NoCommonNIC(SinglePairSpec(p, r, cfg), SinglePairSpec(q, s, cfg))
    ensures GPUsApart(cfg) ==> NoCommonGPU(SinglePairSpec(p, r, cfg), SinglePairSpec(q, s, cfg))
  {
    if RailsApart(cfg) {
      forall d
        ensures !(Accepts(NICSelectors(r, cfg), d) && Accepts(NICSelectors(s, cfg), d))
      {
        ApartSelectors(cfg, r, s, d);
      }
    }
    if cfg.infiniband {
      forall d
        ensures Accepts(GPUSelectors(r, cfg), d) <==> Has(d, "resource.kubernetes.io/pciBusID", cfg.ibRails[r].gpu)
        ensures Accepts(GPUSelectors(s, cfg), d) <==> Has(d, "resource.kubernetes.io/pciBusID", cfg.ibRails[s].gpu)
      {
        GPUSelectorMeaning(cfg, r, d);
        GPUSelectorMeaning(cfg, s, d);
      }
    }
  }

  lemma GPUSelectorMeaning(cfg: Config, r: nat, d: Device)
    requires r < |cfg.ibRails|
    ensures Accepts(GPUSelectors(r, cfg), d) <==> Has(d, "resource.kubernetes.io/pciBusID", cfg.ibRails[r].gpu)
  {
    var selectors := GPUSelectors(r, cfg);
    assert Accepts(selectors, d) <==> Holds(selectors[0][0], d);
  }

  // The same of the GPU requests, which only InfiniBand pins. With one rail
  // there is nothing to keep apart.
  lemma GPUsAreExclusive(cfg: Config, p: nat, q: nat)
    ensures GPUsApart(cfg) || RailCount(cfg) <= 1 <==>
      forall r: nat, s: nat :: r < RailCount(cfg) && s < RailCount(cfg) && r != s ==>
        NoCommonGPU(SinglePairSpec(p, r, cfg), SinglePairSpec(q, s, cfg))
  {
    if GPUsApart(cfg) || RailCount(cfg) <= 1 {
      forall r: nat, s: nat | r < RailCount(cfg) && s < RailCount(cfg) && r != s
        ensures NoCommonGPU(SinglePairSpec(p, r, cfg), SinglePairSpec(q, s, cfg))
      {
        RailTemplatesApart(cfg, p, r, q, s);
      }
    } else {
      var r, s, d := CommonGPU(cfg);
      assert GPUAccepted(SinglePairSpec(p, r, cfg), d) && GPUAccepted(SinglePairSpec(q, s, cfg), d);
      assert !NoCommonGPU(SinglePairSpec(p, r, cfg), SinglePairSpec(q, s, cfg));
    }
  }

  lemma CommonGPU(cfg: Config) returns (r: nat, s: nat, d: Device)
    requires RailCount(cfg) > 1 && !GPUsApart(cfg)
    ensures r < RailCount(cfg) && s < RailCount(cfg) && r != s
    ensures forall x :: x == r || x == s ==> !cfg.infiniband || Accepts(GPUSelectors(x, cfg), d)
  {
    r, s, d := 0, 1, Device("", map[]);
    if cfg.infiniband {
      r, s :| r < s < |cfg.ibRails| && cfg.ibRails[r].gpu == cfg.ibRails[s].gpu;
      d := Device("", map["resource.kubernetes.io/pciBusID" := StringValue(cfg.ibRails[r].gpu)]);
      GPUSelectorMeaning(cfg, r, d);
      GPUSelectorMeaning(cfg, s, d);
    }
  }

  // The claims of one pod want different devices, when each rail is offered by
  // one device of the node only.
  lemma PodClaimsAreExclusive(cfg: Config, naming: Naming, snap: Snapshot, e: Event, w: Wanted, i: nat, j: nat)
    requires RailGrant(cfg, naming, snap, e, w)
    requires Allocator.RailsListedOnce(cfg, snap.inv, e.node)
    requires i < j < |w.specs|
    ensures RailsApart(cfg) ==> NoCommonNIC(w.specs[i], w.specs[j])
    ensures GPUsApart(cfg) ==> NoCommonGPU(w.specs[i], w.specs[j])
  {
    assert e.rails[i] in e.rails && e.rails[j] in e.rails;
    RailTemplatesApart(cfg, i, e.rails[i], j, e.rails[j]);
  }

  // Two pods whose pairs were granted on one node, the second within the
  // time-to-live of the first reservation, have no claims that a single network
  // device, or on InfiniBand a single GPU, could satisfy for both.
  lemma PodsShareNoNIC(cfg: Config, naming: Naming, events: seq<Event>, ttl: nat, a: nat, b: nat, before: Snapshot,
                       after: Snapshot, first: Wanted, second: Wanted, i: nat, j: nat)
    requires CloseGrants(events, ttl, a, b) && ':' !in events[a].node
    requires RailGrant(cfg, naming, before, events[a], first) && RailGrant(cfg, naming, after, events[b], second)
    requires i < |first.specs| && j < |second.specs|
    ensures RailsApart(cfg) ==> NoCommonNIC(first.specs[i], second.specs[j])
    ensures GPUsApart(cfg) ==> NoCommonGPU(first.specs[i], second.specs[j])
  {
    var r, s := events[a].rails[i], events[b].rails[j];
    assert r in events[a].rails && s in events[b].rails;
    NoDoubleBooking(events, ttl, a, b, r);
    RailTemplatesApart(cfg, i, r, j, s);
  }

  // ---- explicit pairs -------------------------------------------------------

  // The device a pair names for a role
  function ValueOf(devices: map<string, string>, role: string): string {
    if role in devices then devices[role] else ""
  }

  // No two pairs of the pool name the same device for the role. The validation
  // of the configuration does not check this.
  predicate PairsDiffer(pool: NodePool, role: string) {
    forall k, l :: 0 <= k < l < |pool.pairs| ==>
      ValueOf(pool.pairs[k].devices, role) != ValueOf(pool.pairs[l].devices, role)
  }

  // The requests of two pairs for a role other than the NIC accept no common
  // device exactly when the pairs name different ones. On the NIC the rail may
  // tell them apart as well.
  lemma ValuesDecide(cfg: Config, pairing: Pairing, role: string, p: PairMapping, q: PairMapping)
    requires role in pairing.selectors
    ensures var first := PinnedRequest(role, p.devices, p.rail, pairing, cfg).selectors;
      var second := PinnedRequest(role, q.devices, q.rail, pairing, cfg).selectors;
      && (ValueOf(p.devices, role) != ValueOf(q.devices, role) ==>
              forall d :: !(Accepts(first, d) && Accepts(second, d)))
      && (role != "nic" && ValueOf(p.devices, role) == ValueOf(q.devices, role) ==>
            exists d :: Accepts(first, d) && Accepts(second, d))
  {
    forall d
      ensures Accepts(PinnedRequest(role, p.devices, p.rail, pairing, cfg).selectors, d) <==>
        FitsRole(cfg, pairing, role, p.devices, p.rail, d)
      ensures Accepts(PinnedRequest(role, q.devices, q.rail, pairing, cfg).selectors, d) <==>
        FitsRole(cfg, pairing, role, q.devices, q.rail, d)
    {
      PinnedMeaning(cfg, pairing, role, p.devices, p.rail, d);
      PinnedMeaning(cfg, pairing, role, q.devices, q.rail, d);
    }
    var d := Device("", map[pairing.selectors[role].attribute := StringValue(ValueOf(p.devices, role))]);
    assert FitsRole(cfg, pairing, role, p.devices, p.rail, d) <==> role == "nic" ==> FitsRail(cfg, p.rail, d);
  }

  // The node keeps the pool it belongs to.
  ghost predicate SamePool(pairing: Pairing, node: string, before: Snapshot, after: Snapshot, pool: NodePool) {
    && (forall p :: IsPoolOf(pairing, before.cluster, node, p) ==> p == pool)
    && forall p :: IsPoolOf(pairing, after.cluster, node, p) ==> p == pool
  }

  // The same for explicit pairs and any role: two pods granted pairs of one node
  // within the time-to-live have no requests for the role that a single device
  // could satisfy for both.
  lemma PodsShareNoDevice(cfg: Config, naming: Naming, events: seq<Event>, ttl: nat, a: nat, b: nat,
                          before: Snapshot, after: Snapshot, first: Wanted, second: Wanted, pool: NodePool, i: nat,
                          j: nat, k: nat, d: Device)
    requires CloseGrants(events, ttl, a, b)
    requires ExplicitGrant(cfg, naming, before, events[a], first)
    requires ExplicitGrant(cfg, naming, after, events[b], second)
    requires SamePool(cfg.pairing.value, events[a].node, before, after, pool)
    requires i < |first.specs| && j < |second.specs| && k < |first.requests|
    requires PairsDiffer(pool, first.requests[k])
    ensures first.requests == second.requests
    ensures k < |first.specs[i].requests| && k < |second.specs[j].requests|
    ensures !(Accepts(first.specs[i].requests[k].selectors, d) && Accepts(second.specs[j].requests[k].selectors, d))
  {
    RolesUnique(cfg, first.requests, second.requests);
    var x, y := events[a].indices[i], events[b].indices[j];
    assert x in events[a].indices && y in events[b].indices;
    NoDoubleBookingExplicit(events, ttl, a, b, x);
    ValuesDecide(cfg, cfg.pairing.value, first.requests[k], pool.pairs[x], pool.pairs[y]);
  }

  // What a grant of explicit pairs is worth: on its node, by what the allocator
  // read there, the template for a granted pair has for each role of a class
  // that serves it a device that its request accepts.
  lemma GrantedPairIsClaimable(cfg: Config, naming: Naming, snap: Snapshot, live: Pending, pod: Pod, namespace: string,
                               count: nat, oneZone: bool, e: Event, w: Wanted, pool: NodePool, i: nat, k: nat)
    requires Allocator.ExplicitDecided(cfg, snap.inv, live, pod, namespace, snap.cluster, count, oneZone, e)
    requires ExplicitGrant(cfg, naming, snap, e, w) && i < |w.specs| && k < |w.requests|
    requires forall p :: IsPoolOf(cfg.pairing.value, snap.cluster, e.node, p) ==> p == pool
    ensures |w.specs[i].requests| == |w.requests| && |w.specs| == |e.indices|
    ensures snap.inv.slices.Some? && e.indices[i] < |pool.pairs| && w.requests[k] in cfg.pairing.value.selectors
    ensures var pair, role := pool.pairs[e.indices[i]], w.requests[k];
      role in pair.devices && ClassServes(cfg, cfg.pairing.value, role, pair.devices[role], pair.rail) ==>
      exists d :: OnNode(snap.inv.slices.value, e.node, d) && Accepts(w.specs[i].requests[k].selectors, d)
  {
    var pairing := cfg.pairing.value;
    var c := Allocator.PairsGranted(cfg, snap.inv, live, pod, namespace, snap.cluster, count, oneZone, e);
    assert IsPoolOf(pairing, snap.cluster, e.node, c.pool);
    var own, pairs :| IsPoolOf(pairing, snap.cluster, e.node, own) && Allocator.Describes(own, e.indices, pairs)
      && PairNames(naming, pairs, w.names) && PairSpecs(cfg, pairing, w.requests, pairs, w.specs);
    assert w.requests[k] in w.requests;
    var slices, pair, role := snap.inv.slices.value, pool.pairs[e.indices[i]], w.requests[k];
    assert Allocator.PairFree(cfg, pairing, slices, live, e.node, pool, e.indices[i]);
    if role in pair.devices && ClassServes(cfg, pairing, role, pair.devices[role], pair.rail) {
      UsableIsClaimable(cfg, pairing, slices, e.node, pair, role);
      var m, n :| 0 <= m < |slices| && NodeOf(slices[m]) == e.node && 0 <= n < |slices[m].devices| &&
        Accepts(PinnedRequest(role, pair.devices, pair.rail, pairing, cfg).selectors, slices[m].devices[n]);
      assert OnNode(slices, e.node, slices[m].devices[n]);
    }
  }

  ghost predicate OnNode(slices: seq<Slice>, node: string, d: Device) {
    exists m :: 0 <= m < |slices| && NodeOf(slices[m]) == node && d in slices[m].devices
  }

  // And the templates of one pod ask for different devices.
  lemma PodPairsAreExclusive(cfg: Config, naming: Naming, events: seq<Event>, ttl: nat, a: nat, snap: Snapshot,
                             w: Wanted, pool: NodePool, i: nat, j: nat, k: nat, d: Device)
    requires IsRun(events, ttl) && a < |events| && ExplicitGrant(cfg, naming, snap, events[a], w)
    requires forall p :: IsPoolOf(cfg.pairing.value, snap.cluster, events[a].node, p) ==> p == pool
    requires i < j < |w.specs| && k < |w.requests| && PairsDiffer(pool, w.requests[k])
    ensures k < |w.specs[i].requests| && k < |w.specs[j].requests|
    ensures !(Accepts(w.specs[i].requests[k].selectors, d) && Accepts(w.specs[j].requests[k].selectors, d))
  {
    var x, y := events[a].indices[i], events[a].indices[j];
    assert Admitted(Replay(events[..a], ttl), events[a], ttl);
    ValuesDecide(cfg, cfg.pairing.value, w.requests[k], pool.pairs[x], pool.pairs[y]);
  }
}
