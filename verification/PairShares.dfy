// What becomes of a pod that asks for pairs, in terms of pods, attributes and the grant alone.
module PairShares {
  import opened Basics
  import opened Sorting
  import opened StringOrder
  import opened Pods
  import opened Builders
  import opened Batches
  import opened Requests
  import opened Templates
  import opened Mutator
  import Text
  import Scan
  import Ledger
  import Allocator
  import Decisions

  // ---- the pod --------------------------------------------------------------

  const PAIR := "dra.llm-d.io/gpu-nic-pair"

  predicate AsksForPairs(c: Container) {
    c.resources.requests.Some? && PAIR in c.resources.requests.value
  }

  // The references are to every request of every claim, each once, and to
  // nothing else.
  ghost predicate RefersToAll(refs: seq<ClaimRef>, claims: seq<PodClaim>, requests: seq<string>) {
    && |refs| == |claims| * |requests| && NoRepeats(refs)
    && (forall c, q :: c in claims && q in requests ==> ClaimRef(c.name, q) in refs)
    && forall x :: x in refs ==> (exists c :: c in claims && c.name == x.name) && x.request in requests
  }

  // The container gives up the pair resource and gains the references.
  ghost predicate GivenPairs(c: Container, d: Container, claims: seq<PodClaim>, requests: seq<string>) {
    && d.rest == c.rest
    && c.resources.requests.Some? && d.resources.requests == Some(c.resources.requests.value - {PAIR})
    && d.resources.limits == (if c.resources.limits.None? then None else Some(c.resources.limits.value - {PAIR}))
    && d.resources.claims.Some?
    && var own := if c.resources.claims.None? then [] else c.resources.claims.value;
       exists refs :: d.resources.claims.value == own + refs && RefersToAll(refs, claims, requests)
  }

  // The new claims follow those the pod had: one for each template, under
  // different names.
  ghost predicate GainsClaims(pod: Pod, q: Pod, claims: seq<PodClaim>, templates: seq<string>) {
    && q.spec.resourceClaims.Some?
    && q.spec.resourceClaims.value ==
         (if pod.spec.resourceClaims.None? then [] else pod.spec.resourceClaims.value) + claims
    && |claims| == |templates|
    && (forall i :: 0 <= i < |claims| ==> claims[i].template == Some(templates[i]) && claims[i].rest == map[])
    && forall i, j :: 0 <= i < j < |claims| ==> claims[i].name != claims[j].name
  }

  ghost predicate PairsShared(pod: Pod, q: Pod, templates: seq<string>, requests: seq<string>) {
    exists claims ::
      && GainsClaims(pod, q, claims, templates)
      && |q.spec.containers| == |pod.spec.containers|
      && forall i :: 0 <= i < |pod.spec.containers| ==>
           if AsksForPairs(pod.spec.containers[i]) then
             GivenPairs(pod.spec.containers[i], q.spec.containers[i], claims, requests)
           else q.spec.containers[i] == pod.spec.containers[i]
  }

  lemma PairNamesDiffer(i: nat, j: nat)
    requires i != j
    ensures PairName(i) != PairName(j)
  {
    var prefix := "gpu-nic-pair-";
    assert PairName(i)[|prefix|..] == Text.Decimal(i) && PairName(j)[|prefix|..] == Text.Decimal(j);
    if Text.Decimal(i) == Text.Decimal(j) {
      Text.DecimalInjective(i, j);
    }
  }

  lemma {:induction false} PairRefsMeans(count: nat, requests: seq<string>)
    ensures |PairRefs(count, requests)| == count * |requests|
    ensures forall i, q :: 0 <= i < count && q in requests ==> ClaimRef(PairName(i), q) in PairRefs(count, requests)
    ensures forall x :: x in PairRefs(count, requests) ==>
      x.request in requests && exists i :: 0 <= i < count && x.name == PairName(i)
    ensures NoRepeats(requests) ==> NoRepeats(PairRefs(count, requests))
  {
    if count > 0 {
      PairRefsMeans(count - 1, requests);
      var before := PairRefs(count - 1, requests);
      var block := seq(|requests|, i requires 0 <= i < |requests| => ClaimRef(PairName(count - 1), requests[i]));
      assert PairRefs(count, requests) == before + block;
      assert (count - 1) * |requests| + |requests| == count * |requests|;
      forall q | q in requests
        ensures ClaimRef(PairName(count - 1), q) in block
      {
        var k :| 0 <= k < |requests| && requests[k] == q;
        assert block[k] == ClaimRef(PairName(count - 1), q);
      }
      if NoRepeats(requests) {
        forall i, j | 0 <= i < j < |before + block|
          ensures (before + block)[i] != (before + block)[j]
        {
          if i < |before| <= j {
            assert before[i] in before;
            var k :| 0 <= k < count - 1 && before[i].name == PairName(k);
            PairNamesDiffer(k, count - 1);
          }
        }
      }
    }
  }

  // The patched pod: every container that asked for pairs refers to every
  // request of every new claim.
  lemma PatchedPairs(cfg: Scan.Config, naming: Naming, pod: Pod, namespace: string, count: nat, snap: Snapshot,
                     before: Store, after: Store, r: Outcome, plan: Plan, e: Ledger.Event, w: Wanted)
    requires PairResult(cfg, naming, pod, namespace, count, snap, before, after, r, plan, e, w) && r.Patched?
    ensures |w.names| == count && PairsShared(pod, Target(pod, plan), w.names, w.requests)
  {
    var b := plan.batches[0];
    RequestsDiffer(cfg, naming, count, snap, e, w);
    var q := Target(pod, plan);
    OneBatch(pod, plan, b);
    NewClaims(pod, count, w.requests, b, w.names, q);
    forall i | 0 <= i < |pod.spec.containers|
      ensures if AsksForPairs(pod.spec.containers[i]) then
                GivenPairs(pod.spec.containers[i], q.spec.containers[i], b.claims, w.requests)
              else q.spec.containers[i] == pod.spec.containers[i]
    {
      ContainerPairs(pod, count, w.requests, b, i);
    }
  }

  lemma OneBatch(pod: Pod, plan: Plan, b: Batch)
    requires |plan.batches| == 1 && plan.batches[0] == b
    ensures Target(pod, plan).spec.containers == AfterBatch(pod, b).spec.containers
    ensures Target(pod, plan).spec.resourceClaims == AfterBatch(pod, b).spec.resourceClaims
  {
    assert plan.batches[..0] == [];
    assert AfterBatches(pod, []) == pod;
    assert AfterBatches(pod, plan.batches) == AfterBatch(pod, b);
  }

  lemma RequestsDiffer(cfg: Scan.Config, naming: Naming, count: nat, snap: Snapshot, e: Ledger.Event, w: Wanted)
    requires PairGrant(cfg, naming, count, snap, e, w)
    ensures NoRepeats(w.requests)
  {
    forall i, j | 0 <= i < j < |w.requests|
      ensures w.requests[i] != w.requests[j]
    {
      if cfg.explicitMode {
        PrecedesTotal(w.requests[i], w.requests[j]);
      }
    }
  }

  lemma NewClaims(pod: Pod, count: nat, requests: seq<string>, b: Batch, templates: seq<string>, q: Pod)
    requires PairBatch(pod, count, requests, b) && TemplatesOf(b.claims) == templates
    requires q.spec.resourceClaims == AfterBatch(pod, b).spec.resourceClaims
    ensures GainsClaims(pod, q, b.claims, templates)
  {
    forall i | 0 <= i < |b.claims|
      ensures b.claims[i] == PodClaim(PairName(i), Some(templates[i]), map[])
    {
      assert b.claims[i] == PairClaims(templates)[i];
    }
    forall i, j | 0 <= i < j < |b.claims|
      ensures b.claims[i].name != b.claims[j].name
    {
      PairNamesDiffer(i, j);
    }
  }

  lemma ContainerPairs(pod: Pod, count: nat, requests: seq<string>, b: Batch, i: nat)
    requires PairBatch(pod, count, requests, b) && NoRepeats(requests) && i < |pod.spec.containers|
    ensures var c, d := pod.spec.containers[i], AfterBatch(pod, b).spec.containers[i];
      if AsksForPairs(c) then GivenPairs(c, d, b.claims, requests) else d == c
  {
    var cs := pod.spec.containers;
    AskingFacts(cs, GPU_NIC_PAIR);
    assert i in b.containers <==> AsksForPairs(cs[i]) by {
      if i in b.containers {
        var k :| 0 <= k < |b.containers| && b.containers[k] == i;
        assert Asks(cs[b.containers[k]], GPU_NIC_PAIR);
      }
      if AsksForPairs(cs[i]) {
        assert Asks(cs[i], GPU_NIC_PAIR);
      }
    }
    if i in b.containers {
      var refs := RefsOf(b, i);
      assert refs == PairRefs(count, requests);
      PairRefsMeans(count, requests);
      forall c, q | c in b.claims && q in requests
        ensures ClaimRef(c.name, q) in refs
      {
        var k :| 0 <= k < |b.claims| && b.claims[k] == c;
        assert b.claims[k] == PairClaims(TemplatesOf(b.claims))[k];
      }
      forall x | x in refs
        ensures exists c :: c in b.claims && c.name == x.name
      {
        var k :| 0 <= k < count && x.name == PairName(k);
        assert b.claims[k] == PairClaims(TemplatesOf(b.claims))[k];
        assert b.claims[k] in b.claims;
      }
      assert RefersToAll(refs, b.claims, requests);
    }
  }

  // ---- the templates --------------------------------------------------------

  // What a request for the NIC of a rail asks of a device
  predicate FitsNIC(cfg: Scan.Config, r: int, d: Scan.Device) {
    if cfg.infiniband then
      if 0 <= r < |cfg.ibRails| then
        && IsTrue(d, "dra.net/rdma") && Is(d, "dra.net/pciAddress", cfg.ibRails[r].nic)
      else cfg.rdmaRequired ==> IsTrue(d, "dra.net/rdma") && Is(d, "dra.net/encapsulation", "infiniband")
    else
      && (cfg.rdmaRequired ==> IsTrue(d, "dra.net/rdma"))
      && (0 <= r < |cfg.rails| ==>
            && "dra.net/ipv4" in d.attributes && d.attributes["dra.net/ipv4"].StringValue?
            && cfg.rails[r] <= d.attributes["dra.net/ipv4"].s)
  }

  predicate Is(d: Scan.Device, name: string, value: string) {
    name in d.attributes && d.attributes[name] == Scan.StringValue(value)
  }

  predicate IsTrue(d: Scan.Device, name: string) {
    name in d.attributes && d.attributes[name] == Scan.BoolValue(true)
  }

  // A template for the i-th pair, on a rail: a GPU and a NIC, of their classes,
  // under one PCIe root on Ethernet and pinned to the rail's devices otherwise
  ghost predicate IsRailTemplate(cfg: Scan.Config, i: nat, r: nat, spec: ClaimSpec) {
    && |spec.requests| == 2
    && spec.requests[0].name == "gpu" && spec.requests[0].deviceClass == cfg.gpuClass
    && spec.requests[1].name == "nic" && spec.requests[1].deviceClass == cfg.nicClass
    && spec.samePCIeRoot == !cfg.infiniband && spec.parameters == Some((i, r))
    && (forall d :: Scan.Accepts(spec.requests[1].selectors, d) <==> FitsNIC(cfg, r, d))
    && forall d :: Scan.Accepts(spec.requests[0].selectors, d) <==>
         cfg.infiniband && r < |cfg.ibRails| ==> Is(d, "resource.kubernetes.io/pciBusID", cfg.ibRails[r].gpu)
  }

  // The templates of a grant of rails, one for each in order, are in the store.
  lemma RailTemplates(cfg: Scan.Config, naming: Naming, pod: Pod, namespace: string, count: nat, snap: Snapshot,
                      before: Store, after: Store, r: Outcome, plan: Plan, e: Ledger.Event, w: Wanted)
    requires PairResult(cfg, naming, pod, namespace, count, snap, before, after, r, plan, e, w) && r.Patched?
    requires !cfg.explicitMode
    ensures e.Pairs? && |e.rails| == count
    ensures forall i :: 0 <= i < count ==>
      && w.names[i] == naming.pair(i, e.rails[i]) && (namespace, w.names[i]) in after
      && IsRailTemplate(cfg, i, e.rails[i], after[(namespace, w.names[i])])
  {
    forall i | 0 <= i < count
      ensures IsRailTemplate(cfg, i, e.rails[i], after[(namespace, w.names[i])])
    {
      RailSpecMeans(cfg, i, e.rails[i]);
    }
  }

  lemma RailSpecMeans(cfg: Scan.Config, i: nat, r: nat)
    ensures IsRailTemplate(cfg, i, r, SinglePairSpec(i, r, cfg))
  {
    forall d
      ensures Scan.Accepts(Scan.NICSelectors(r, cfg), d) <==> FitsNIC(cfg, r, d)
      ensures Scan.Accepts(GPUSelectors(r, cfg), d) <==>
        r < |cfg.ibRails| ==> Is(d, "resource.kubernetes.io/pciBusID", cfg.ibRails[r].gpu)
    {
      Scan.SelectorMeaning(cfg, d, r);
      if r < |cfg.ibRails| {
        var selectors := GPUSelectors(r, cfg);
        assert Scan.Accepts(selectors, d) <==> Scan.Holds(selectors[0][0], d);
      }
    }
    assert forall d :: Scan.Accepts([], d);
  }

  // A template for an explicit pair: for each role a request of its class that
  // accepts the device the pair names, on the NIC if it fits the pair's rail too
  ghost predicate IsPairTemplate(cfg: Scan.Config, i: nat, pair: Scan.PairMapping, roles: seq<string>, spec: ClaimSpec)
    requires cfg.pairing.Some?
  {
    && |spec.requests| == |roles| && !spec.samePCIeRoot
    && spec.parameters == (if "nic" in roles then Some((i, pair.rail)) else None)
    && forall k {:trigger spec.requests[k]} :: 0 <= k < |roles| ==>
         && roles[k] in cfg.pairing.value.selectors
         && spec.requests[k].name == roles[k]
         && spec.requests[k].deviceClass == cfg.pairing.value.selectors[roles[k]].deviceClass
         && forall d :: Scan.Accepts(spec.requests[k].selectors, d) <==>
              && Is(d, cfg.pairing.value.selectors[roles[k]].attribute,
                    if roles[k] in pair.devices then pair.devices[roles[k]] else "")
              && (roles[k] == "nic" ==> FitsNIC(cfg, pair.rail, d))
  }

  // The same for a grant of explicit pairs
  lemma PairTemplates(cfg: Scan.Config, naming: Naming, pod: Pod, namespace: string, count: nat, snap: Snapshot,
                      before: Store, after: Store, r: Outcome, plan: Plan, e: Ledger.Event, w: Wanted)
    returns (pool: Scan.NodePool)
    requires PairResult(cfg, naming, pod, namespace, count, snap, before, after, r, plan, e, w) && r.Patched?
    requires cfg.explicitMode
    ensures e.Explicit? && |e.indices| == count && cfg.pairing.Some?
    ensures IsPoolOf(cfg.pairing.value, snap.cluster, e.node, pool)
    ensures forall role :: role in w.requests <==> role in cfg.pairing.value.selectors
    ensures forall i :: 0 <= i < count ==>
      && e.indices[i] < |pool.pairs| && (namespace, w.names[i]) in after
      && w.names[i] == naming.explicitPair(i, pool.pairs[e.indices[i]].rail, pool.pairs[e.indices[i]].devices)
      && IsPairTemplate(cfg, i, pool.pairs[e.indices[i]], w.requests, after[(namespace, w.names[i])])
  {
    var pairing := cfg.pairing.value;
    var own, pairs :| IsPoolOf(pairing, snap.cluster, e.node, own) && Allocator.Describes(own, e.indices, pairs)
      && PairNames(naming, pairs, w.names) && PairSpecs(cfg, pairing, w.requests, pairs, w.specs);
    pool := own;
    forall i | 0 <= i < count
      ensures IsPairTemplate(cfg, i, pool.pairs[e.indices[i]], w.requests, after[(namespace, w.names[i])])
    {
      var pair := pool.pairs[e.indices[i]];
      PairSpecMeans(cfg, i, pair, w.requests);
    }
  }

  lemma PairSpecMeans(cfg: Scan.Config, i: nat, pair: Scan.PairMapping, roles: seq<string>)
    requires cfg.pairing.Some? && forall role :: role in roles ==> role in cfg.pairing.value.selectors
    ensures IsPairTemplate(cfg, i, pair, roles,
                           ExplicitPairSpec(i, pair.rail, pair.devices, roles, cfg.pairing.value, cfg))
  {
    var pairing := cfg.pairing.value;
    var spec := ExplicitPairSpec(i, pair.rail, pair.devices, roles, pairing, cfg);
    forall k | 0 <= k < |roles|
      ensures roles[k] in pairing.selectors && spec.requests[k].name == roles[k]
      ensures spec.requests[k].deviceClass == pairing.selectors[roles[k]].deviceClass
      ensures forall d :: Scan.Accepts(spec.requests[k].selectors, d) <==>
        && Is(d, pairing.selectors[roles[k]].attribute, if roles[k] in pair.devices then pair.devices[roles[k]] else "")
        && (roles[k] == "nic" ==> FitsNIC(cfg, pair.rail, d))
    {
      assert roles[k] in roles;
      forall d
        ensures Scan.Accepts(spec.requests[k].selectors, d) <==>
          && Is(d, pairing.selectors[roles[k]].attribute,
                if roles[k] in pair.devices then pair.devices[roles[k]] else "")
          && (roles[k] == "nic" ==> FitsNIC(cfg, pair.rail, d))
      {
        PinnedMeaning(cfg, pairing, roles[k], pair.devices, pair.rail, d);
      }
    }
  }

  // ---- which counts, and where ----------------------------------------------

  predicate Marked(pod: Pod, name: string) {
    pod.meta.annotations.Some? && name in pod.meta.annotations.value && pod.meta.annotations.value[name] == "true"
  }

  // The allocator is asked for pairs exactly when the count is positive, no more
  // than a node, and than the configured rails, can have, and fits a NUMA node,
  // fills the node, or may cross.
  lemma CountsTried(cfg: Scan.Config, intercepts: InterceptMap, naming: Naming, past: seq<Ledger.Event>, ttl: nat,
                    pod: Pod, namespace: string, world: nat -> Snapshot, before: Store, after: Store, r: Outcome,
                    plan: Plan, events: seq<Ledger.Event>)
    requires MutateResult(cfg, intercepts, naming, past, ttl, pod, namespace, world, before, after, r, plan, events)
    requires !Marked(pod, "dra.llm-d.io/mutated") && Sum(pod.spec.containers, PAIR) > 0
    requires !AsksIntercepted(pod, intercepts)
    ensures var count := Sum(pod.spec.containers, PAIR);
      events != [] <==>
        && count <= cfg.maxPairsPerNode && (cfg.rails == [] || count <= |cfg.rails|)
        && (count == cfg.maxPairsPerNode || count <= cfg.maxPairsPerNUMA
            || Marked(pod, "dra.llm-d.io/allow-cross-numa"))
    ensures r.Patched? ==> events != []
  {
  }

  // A pod that may not cross and does not fill a node is granted rails of one
  // NUMA node, unless packing is switched off: there is one for which each rail
  // has a device on it, in no claim, that is given the rail.
  lemma RailsOnOneNUMANode(cfg: Scan.Config, past: seq<Ledger.Event>, ttl: nat, pod: Pod, namespace: string,
                           count: nat, snap: Snapshot, e: Ledger.Event)
    returns (z: int)
    requires PairsTried(cfg, past, ttl, pod, namespace, count, snap, e) && e.Pairs? && !cfg.explicitMode
    requires 0 < count < cfg.maxPairsPerNode && !cfg.disableNUMAPacking
    requires !Marked(pod, "dra.llm-d.io/allow-cross-numa")
    ensures |e.rails| == count && snap.inv.slices.Some?
    ensures forall r :: r in e.rails ==> Decisions.IsServed(cfg, snap.inv, e.node, Some(z), r)
  {
    var live := Ledger.Live(Ledger.Replay(past, ttl), e.start, ttl);
    assert Ledger.AliveAt(past, ttl, e.start, live);
    var zone := Decisions.GrantedRailsAreServed(cfg, snap.inv, live, pod, namespace, snap.cluster, count, true, e);
    z := zone.value;
  }

  // The same for explicit pairs, by the NUMA node configured for each
  lemma PairsOnOneNUMANode(cfg: Scan.Config, past: seq<Ledger.Event>, ttl: nat, pod: Pod, namespace: string,
                           count: nat, snap: Snapshot, e: Ledger.Event)
    returns (c: Allocator.Candidate, z: int)
    requires PairsTried(cfg, past, ttl, pod, namespace, count, snap, e) && e.Explicit? && cfg.explicitMode
    requires 0 < count < cfg.maxPairsPerNode && !Marked(pod, "dra.llm-d.io/allow-cross-numa")
    ensures |e.indices| == count && snap.cluster.nodes.Some? && c.node in snap.cluster.nodes.value
    ensures cfg.pairing.Some? && Scan.PoolOf(cfg.pairing.value, c.node.labels) == Some(c.pool) && c.node.name == e.node
    ensures forall i :: 0 <= i < count ==> e.indices[i] < |c.pool.pairs| && c.pool.pairs[e.indices[i]].numa == z
  {
    var live := Ledger.Live(Ledger.Replay(past, ttl), e.start, ttl);
    assert Ledger.AliveAt(past, ttl, e.start, live);
    c, z := Decisions.ExplicitOnOneNUMANode(cfg, snap.inv, live, pod, namespace, snap.cluster, count, e);
  }

  // A pod is left alone exactly when it carries the mark or asks for nothing, and
  // denied without a call when it asks for both kinds.
  lemma LeftAloneExactly(cfg: Scan.Config, intercepts: InterceptMap, naming: Naming, past: seq<Ledger.Event>, ttl: nat,
                         pod: Pod, namespace: string, world: nat -> Snapshot, before: Store, after: Store, r: Outcome,
                         plan: Plan, events: seq<Ledger.Event>)
    requires MutateResult(cfg, intercepts, naming, past, ttl, pod, namespace, world, before, after, r, plan, events)
    ensures var asksOther := exists name, i ::
        name in intercepts && 0 <= i < |pod.spec.containers| && Positive(pod.spec.containers[i], name) > 0;
      && (r.Unchanged? <==>
            Marked(pod, "dra.llm-d.io/mutated") || (Sum(pod.spec.containers, PAIR) == 0 && !asksOther))
      && (!Marked(pod, "dra.llm-d.io/mutated") && Sum(pod.spec.containers, PAIR) > 0 && asksOther ==>
            r.Denied? && events == [])
    ensures r.Unchanged? ==> events == []
  {
    AsksMeans(pod, intercepts);
  }

  lemma AsksMeans(pod: Pod, intercepts: InterceptMap)
    ensures AsksIntercepted(pod, intercepts) <==>
      exists name, i ::
        name in intercepts && 0 <= i < |pod.spec.containers| && Positive(pod.spec.containers[i], name) > 0
  {
    var cs := pod.spec.containers;
    forall name
      ensures SharesOf(cs, name) != [] <==> exists i :: 0 <= i < |cs| && Positive(cs[i], name) > 0
    {
      SharesFacts(cs, name);
      var shares := SharesOf(cs, name);
      if i :| 0 <= i < |cs| && Positive(cs[i], name) > 0 {
        assert Share(i, Amount(cs[i], name)) in shares;
      }
      if shares != [] {
        assert Positive(cs[shares[0].container], name) > 0;
      }
    }
  }
}
