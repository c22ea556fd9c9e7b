// The mutator: from a pod to the JSON Patch that replaces what it asks for by claims and pins it.
module Mutator {
  import opened Basics
  import opened Sorting
  import opened Json
  import opened Pods
  import opened PodJson
  import opened Constraints
  import opened Builders
  import opened Batches
  import opened Requests
  import opened Templates
  import opened ClaimNames
  import Text
  import Scan
  import Ledger
  import Allocator
  import Decisions

  const ALLOW_CROSS_NUMA := "dra.llm-d.io/allow-cross-numa"

  // What the API server answers during one allocator call
  datatype Snapshot = Snapshot(inv: Scan.Inventory, cluster: Cluster)

  // Template names; the hashes in them are taken as given.
  datatype Naming = Naming(
    pair: (nat, int) -> string,
    explicitPair: (nat, int, map<string, string>) -> string,
    extended: (nat, string) -> string)

  datatype Outcome = Unchanged | Denied(reason: string) | Patched(ops: seq<Op>)

  datatype Plan = Plan(node: string, batches: seq<Batch>)

  function Annotation(pod: Pod, name: string): string {
    if pod.meta.annotations.Some? && name in pod.meta.annotations.value then pod.meta.annotations.value[name] else ""
  }

  // ---- the pod the patch is meant to produce --------------------------------

  ghost predicate Consistent(pod: Pod, batches: seq<Batch>) {
    && (forall k {:trigger Batches.Requests(pod, batches[k])} :: 0 <= k < |batches| ==>
          Batches.Requests(pod, batches[k]))
    && (forall k, l :: 0 <= k < l < |batches| ==> batches[k].resource != batches[l].resource)
  }

  function Target(pod: Pod, plan: Plan): Pod {
    MarkMutated(Pin(AfterBatches(pod, plan.batches), plan.node))
  }

  // Applied to the pod's document the patch yields exactly the target, provided
  // every existing required node-selector term has a matchFields array; without
  // one it does not apply at all.
  ghost predicate Compiles(pod: Pod, ops: seq<Op>, plan: Plan) {
    && Consistent(pod, plan.batches)
    && ApplyAll(Document(pod), ops) ==
         if FieldsPresent(pod.spec.affinity) then Some(Document(Target(pod, plan))) else None
  }

  // ---- claims and references ------------------------------------------------

  function PairName(i: nat): string {
    "gpu-nic-pair-" + Text.Decimal(i)
  }

  function PairClaims(templates: seq<string>): seq<PodClaim> {
    seq(|templates|, i requires 0 <= i < |templates| => PodClaim(PairName(i), Some(templates[i]), map[]))
  }

  // Every request of every pair, pair by pair
  function PairRefs(count: nat, requests: seq<string>): seq<ClaimRef> {
    if count == 0 then []
    else
      PairRefs(count - 1, requests) +
      seq(|requests|, i requires 0 <= i < |requests| => ClaimRef(PairName(count - 1), requests[i]))
  }

  function DeviceRefs(names: seq<string>, offset: nat, count: nat): seq<ClaimRef>
    requires offset + count <= |names|
  {
    seq(count, j requires 0 <= j < count => ClaimRef(names[offset + j], "device"))
  }

  // Each container in turn takes the next claims, as many as it asked for.
  function Handout(names: seq<string>, shares: seq<Share>): (refs: seq<seq<ClaimRef>>)
    requires Total(shares) <= |names|
    ensures |refs| == |shares|
  {
    if shares == [] then []
    else
      var before := shares[..|shares| - 1];
      Handout(names, before) + [DeviceRefs(names, Total(before), shares[|shares| - 1].count)]
  }

  function Flatten(refs: seq<seq<ClaimRef>>): seq<ClaimRef> {
    if refs == [] then [] else Flatten(refs[..|refs| - 1]) + refs[|refs| - 1]
  }

  lemma {:induction false} HandoutCounts(names: seq<string>, shares: seq<Share>)
    requires Total(shares) <= |names|
    ensures forall k :: 0 <= k < |shares| ==> |Handout(names, shares)[k]| == shares[k].count
  {
    if shares != [] {
      var before := shares[..|shares| - 1];
      HandoutCounts(names, before);
      assert forall k :: 0 <= k < |before| ==> Handout(names, shares)[k] == Handout(names, before)[k];
    }
  }

  lemma {:induction false} HandoutJoins(names: seq<string>, shares: seq<Share>)
    requires Total(shares) <= |names|
    ensures Flatten(Handout(names, shares)) == DeviceRefs(names, 0, Total(shares))
  {
    if shares != [] {
      var before := shares[..|shares| - 1];
      HandoutJoins(names, before);
      var refs := Handout(names, shares);
      assert refs[..|refs| - 1] == Handout(names, before);
    }
  }

  // Each container gets exactly the number of claims it asked for, and together
  // the containers hold every claim once, in order.
  lemma {:induction false} HandoutIsExact(names: seq<string>, shares: seq<Share>)
    requires Total(shares) <= |names|
    ensures forall k :: 0 <= k < |shares| ==> |Handout(names, shares)[k]| == shares[k].count
    ensures Flatten(Handout(names, shares)) == DeviceRefs(names, 0, Total(shares))
  {
    HandoutCounts(names, shares);
    HandoutJoins(names, shares);
  }

  // With distinct names no claim is shared: a reference occurs at one place of
  // one container only.
  lemma {:induction false} NoSharedClaim(names: seq<string>, shares: seq<Share>, k: nat, i: nat, l: nat, j: nat)
    requires Total(shares) <= |names| && NoRepeats(names)
    requires k < |shares| && l < |shares| && i < |Handout(names, shares)[k]| && j < |Handout(names, shares)[l]|
    requires Handout(names, shares)[k][i] == Handout(names, shares)[l][j]
    ensures k == l && i == j
  {
    var n := |shares| - 1;
    var before := shares[..n];
    var refs := Handout(names, shares);
    assert refs[..n] == Handout(names, before);
    HandoutCounts(names, before);
    if k < n && l < n {
      NoSharedClaim(names, before, k, i, l, j);
    } else if k < n {
      RefsLieBelow(names, before, k, i);
    } else if l < n {
      RefsLieBelow(names, before, l, j);
    }
  }

  lemma {:induction false} RefsLieBelow(names: seq<string>, shares: seq<Share>, k: nat, i: nat)
    requires Total(shares) <= |names|
    requires k < |shares| && i < |Handout(names, shares)[k]|
    ensures exists m :: 0 <= m < Total(shares) && Handout(names, shares)[k][i] == ClaimRef(names[m], "device")
  {
    var n := |shares| - 1;
    var before := shares[..n];
    if k < n {
      assert Handout(names, shares)[k] == Handout(names, before)[k];
      RefsLieBelow(names, before, k, i);
    } else {
      assert Handout(names, shares)[k][i] == ClaimRef(names[Total(before) + i], "device");
    }
  }

  function ContainersOf(shares: seq<Share>): seq<nat> {
    seq(|shares|, k requires 0 <= k < |shares| => shares[k].container)
  }

  function NamesOf(claims: seq<PodClaim>): seq<string> {
    seq(|claims|, i requires 0 <= i < |claims| => claims[i].name)
  }

  function TemplatesOf(claims: seq<PodClaim>): seq<string> {
    seq(|claims|, i requires 0 <= i < |claims| => if claims[i].template.Some? then claims[i].template.value else "")
  }

  function ClaimNamesOf(pod: Pod): set<string> {
    set c | c in ListOf(pod.spec.resourceClaims) :: c.name
  }

  // What phase 1 of Mutate does to a pod asking for pairs
  ghost predicate PairBatch(pod: Pod, count: nat, requests: seq<string>, b: Batch) {
    && b.resource == GPU_NIC_PAIR && b.containers == Asking(pod.spec.containers, GPU_NIC_PAIR)
    && |b.claims| == count && b.claims == PairClaims(TemplatesOf(b.claims))
    && |b.refs| == |b.containers|
    && forall k :: 0 <= k < |b.refs| ==> b.refs[k] == PairRefs(count, requests)
  }

  // What phase 2 does for one intercepted resource
  ghost predicate InterceptedBatch(pod: Pod, req: Intercepted, naming: Naming, b: Batch) {
    && b.resource == req.resource && b.containers == ContainersOf(req.shares)
    && |b.claims| == Total(req.shares)
    && Named(ClaimNamesOf(pod), req.resource, NamesOf(b.claims))
    && (forall i :: 0 <= i < |b.claims| ==>
          b.claims[i] == PodClaim(b.claims[i].name, Some(naming.extended(i, req.cls)), map[]))
    && b.refs == Handout(NamesOf(b.claims), req.shares)
  }

  // ---- validation -----------------------------------------------------------

  // ValidateRequest
  predicate Acceptable(count: int, allowCross: bool, cfg: Scan.Config) {
    && 0 < count <= cfg.maxPairsPerNode
    && (cfg.rails != [] ==> count <= |cfg.rails|)
    && (count == cfg.maxPairsPerNode || count <= cfg.maxPairsPerNUMA || allowCross)
  }

  predicate AllowsCross(pod: Pod) {
    Annotation(pod, ALLOW_CROSS_NUMA) == "true"
  }

  predicate NUMAConstrained(pod: Pod, count: nat, cfg: Scan.Config) {
    !AllowsCross(pod) && count < cfg.maxPairsPerNode
  }

  // ---- what a grant of pairs asks for ---------------------------------------

  // The templates wanted for a grant: names, specs, and the requests in them
  datatype Wanted = Wanted(names: seq<string>, specs: seq<ClaimSpec>, requests: seq<string>)

  ghost predicate RailSpecs(cfg: Scan.Config, rails: seq<nat>, specs: seq<ClaimSpec>) {
    && |specs| == |rails|
    && forall i :: 0 <= i < |specs| ==> specs[i] == SinglePairSpec(i, rails[i], cfg)
  }

  ghost predicate RailNames(naming: Naming, rails: seq<nat>, names: seq<string>) {
    && |names| == |rails|
    && forall i :: 0 <= i < |names| ==> names[i] == naming.pair(i, rails[i])
  }

  ghost predicate PairSpecs(cfg: Scan.Config, pairing: Scan.Pairing, roles: seq<string>,
                            pairs: seq<Allocator.ChosenPair>, specs: seq<ClaimSpec>) {
    && |specs| == |pairs|
    && forall i :: 0 <= i < |specs| ==>
         specs[i] == ExplicitPairSpec(pairs[i].nicIndex, pairs[i].rail, pairs[i].devices, roles, pairing, cfg)
  }

  ghost predicate PairNames(naming: Naming, pairs: seq<Allocator.ChosenPair>, names: seq<string>) {
    && |names| == |pairs|
    && forall i :: 0 <= i < |names| ==>
         names[i] == naming.explicitPair(pairs[i].nicIndex, pairs[i].rail, pairs[i].devices)
  }

  // The pool of a listed node
  ghost predicate IsPoolOf(pairing: Scan.Pairing, cluster: Cluster, node: string, pool: Scan.NodePool) {
    cluster.nodes.Some? &&
    exists n :: n in cluster.nodes.value && n.name == node && Scan.PoolOf(pairing, n.labels) == Some(pool)
  }

  // Rails of a grant: configured ones, and none twice when each is offered by
  // one device of the node only; the templates are for them, in order.
  ghost predicate RailGrant(cfg: Scan.Config, naming: Naming, snap: Snapshot, e: Ledger.Event, w: Wanted) {
    && e.Pairs? && snap.inv.slices.Some?
    && RailNames(naming, e.rails, w.names) && RailSpecs(cfg, e.rails, w.specs) && w.requests == ["gpu", "nic"]
    && (forall r :: r in e.rails ==> r < Scan.RailCount(cfg))
    && (Allocator.RailsListedOnce(cfg, snap.inv, e.node) ==> NoRepeats(e.rails))
  }

  // Pairs of a grant: those of the pool of the granted node at the granted
  // indices; the templates are for them, in order, with a request per role.
  ghost predicate ExplicitGrant(cfg: Scan.Config, naming: Naming, snap: Snapshot, e: Ledger.Event, w: Wanted) {
    && e.Explicit? && cfg.pairing.Some? && IsRoles(cfg, w.requests)
    && exists pool, pairs ::
         && IsPoolOf(cfg.pairing.value, snap.cluster, e.node, pool) && Allocator.Describes(pool, e.indices, pairs)
         && PairNames(naming, pairs, w.names) && PairSpecs(cfg, cfg.pairing.value, w.requests, pairs, w.specs)
  }

  ghost predicate PairGrant(cfg: Scan.Config, naming: Naming, count: nat, snap: Snapshot, e: Ledger.Event, w: Wanted) {
    && |w.names| == |w.specs| == count
    && if cfg.explicitMode then ExplicitGrant(cfg, naming, snap, e, w) else RailGrant(cfg, naming, snap, e, w)
  }

  // What the allocator decides for a pod asking for pairs, after the calls in
  // the past
  ghost predicate PairsTried(cfg: Scan.Config, past: seq<Ledger.Event>, ttl: nat, pod: Pod, namespace: string,
                             count: nat, snap: Snapshot, e: Ledger.Event) {
    var numa := NUMAConstrained(pod, count, cfg);
    forall live {:trigger Ledger.AliveAt(past, ttl, e.start, live)} :: Ledger.AliveAt(past, ttl, e.start, live) ==>
      if cfg.explicitMode then
        Allocator.ExplicitDecided(cfg, snap.inv, live, pod, namespace, snap.cluster, count, numa, e)
      else
        Allocator.RailsDecided(cfg, snap.inv, live, pod, namespace, snap.cluster, count,
                               numa && !cfg.disableNUMAPacking, e)
  }

  // What becomes of a pod asking for pairs: denied when the count is not
  // acceptable, when the allocator finds no node, or when a template of one of
  // the wanted names diverges; patched in every other case.
  ghost predicate PairOutcome(cfg: Scan.Config, naming: Naming, past: seq<Ledger.Event>, ttl: nat, pod: Pod,
                              namespace: string, count: int, snap: Snapshot, before: Store, after: Store, r: Outcome,
                              plan: Plan, events: seq<Ledger.Event>) {
    if !Acceptable(count, AllowsCross(pod), cfg) then r.Denied? && events == []
    else
      && |events| == 1 && PairsTried(cfg, past, ttl, pod, namespace, count, snap, events[0])
      && if events[0].Refused? then r.Denied?
         else exists w :: PairResult(cfg, naming, pod, namespace, count, snap, before, after, r, plan, events[0], w)
  }

  ghost predicate PairResult(cfg: Scan.Config, naming: Naming, pod: Pod, namespace: string, count: nat,
                             snap: Snapshot, before: Store, after: Store, r: Outcome, plan: Plan, e: Ledger.Event,
                             w: Wanted) {
    && PairGrant(cfg, naming, count, snap, e, w)
    && (if Agree(before, namespace, w.names, w.specs) then r.Patched? else r.Denied?)
    && (r.Patched? ==>
          && (e.Pairs? || e.Explicit?) && plan.node == e.node && Admits(pod, namespace, snap.cluster, plan.node)
          && |plan.batches| == 1 && PairBatch(pod, count, w.requests, plan.batches[0])
          && TemplatesOf(plan.batches[0].claims) == w.names
          && after == With(before, namespace, w.names, w.specs) && Backed(after, namespace, w.names, w.specs))
  }

  // ---- what intercepted requests ask for ------------------------------------

  function NamesFor(naming: Naming, req: Intercepted): (names: seq<string>)
    ensures |names| == Total(req.shares)
  {
    seq(Total(req.shares), i requires 0 <= i < Total(req.shares) => naming.extended(i, req.cls))
  }

  function SpecsFor(req: Intercepted): (specs: seq<ClaimSpec>)
    ensures |specs| == Total(req.shares)
  {
    seq(Total(req.shares), i => ExtendedSpec(req.cls))
  }

  // The templates for the first k requests
  function WantedNames(naming: Naming, reqs: seq<Intercepted>, k: nat): (names: seq<string>)
    requires k <= |reqs|
    ensures |names| == |WantedSpecs(reqs, k)|
  {
    if k == 0 then [] else WantedNames(naming, reqs, k - 1) + NamesFor(naming, reqs[k - 1])
  }

  function WantedSpecs(reqs: seq<Intercepted>, k: nat): seq<ClaimSpec>
    requires k <= |reqs|
  {
    if k == 0 then [] else WantedSpecs(reqs, k - 1) + SpecsFor(reqs[k - 1])
  }

  // No template wanted for the first k requests diverges.
  ghost predicate AgreeFor(before: Store, namespace: string, naming: Naming, reqs: seq<Intercepted>, k: nat)
    requires k <= |reqs|
  {
    Agree(before, namespace, WantedNames(naming, reqs, k), WantedSpecs(reqs, k))
  }

  function StoreFor(before: Store, namespace: string, naming: Naming, reqs: seq<Intercepted>, k: nat): Store
    requires k <= |reqs|
  {
    With(before, namespace, WantedNames(naming, reqs, k), WantedSpecs(reqs, k))
  }

  lemma AgreeForNext(before: Store, namespace: string, naming: Naming, reqs: seq<Intercepted>, k: nat)
    requires k < |reqs|
    ensures AgreeFor(before, namespace, naming, reqs, k + 1) <==>
      && AgreeFor(before, namespace, naming, reqs, k)
      && Agree(StoreFor(before, namespace, naming, reqs, k), namespace, NamesFor(naming, reqs[k]), SpecsFor(reqs[k]))
    ensures StoreFor(before, namespace, naming, reqs, k + 1) ==
      With(StoreFor(before, namespace, naming, reqs, k), namespace, NamesFor(naming, reqs[k]), SpecsFor(reqs[k]))
  {
    AgreeConcat(before, namespace, WantedNames(naming, reqs, k), WantedSpecs(reqs, k), NamesFor(naming, reqs[k]),
                SpecsFor(reqs[k]));
  }

  // The first grant picks the node for the others.
  function ConstrainTo(events: seq<Ledger.Event>): string {
    if events == [] || events[0].Refused? then "" else events[0].node
  }

  ghost predicate DevicesTried(past: seq<Ledger.Event>, ttl: nat, pod: Pod, namespace: string, req: Intercepted,
                               constrainTo: string, snap: Snapshot, e: Ledger.Event) {
    forall live {:trigger Ledger.AliveAt(past, ttl, e.start, live)} :: Ledger.AliveAt(past, ttl, e.start, live) ==>
      Allocator.DevicesDecided(snap.inv, live, pod, namespace, snap.cluster, Total(req.shares), req.cls, constrainTo, e)
  }

  // One call for each of the first requests, each after those before it
  ghost predicate AllTried(past: seq<Ledger.Event>, ttl: nat, pod: Pod, namespace: string, reqs: seq<Intercepted>,
                           world: nat -> Snapshot, events: seq<Ledger.Event>) {
    && |events| <= |reqs|
    && forall k {:trigger IsTried(past, ttl, pod, namespace, reqs, world, events, k)} :: 0 <= k < |events| ==>
         IsTried(past, ttl, pod, namespace, reqs, world, events, k)
  }

  ghost predicate IsTried(past: seq<Ledger.Event>, ttl: nat, pod: Pod, namespace: string, reqs: seq<Intercepted>,
                          world: nat -> Snapshot, events: seq<Ledger.Event>, k: nat)
    requires k < |events| <= |reqs|
  {
    DevicesTried(past + events[..k], ttl, pod, namespace, reqs[k], ConstrainTo(events[..k]), world(k), events[k])
  }

  ghost predicate AllGranted(events: seq<Ledger.Event>) {
    forall k :: 0 <= k < |events| ==> events[k].Extended?
  }

  // All requests go through exactly when the allocator grants each and no
  // template diverges; otherwise the last request tried is the first that did
  // not.
  ghost predicate InterceptedDecided(past: seq<Ledger.Event>, ttl: nat, pod: Pod, namespace: string,
                                     reqs: seq<Intercepted>, naming: Naming, world: nat -> Snapshot, before: Store,
                                     events: seq<Ledger.Event>, ok: bool) {
    && AllTried(past, ttl, pod, namespace, reqs, world, events)
    && (ok <==> |events| == |reqs| && AllGranted(events) && AgreeFor(before, namespace, naming, reqs, |reqs|))
    && (!ok ==>
          && events != [] && AllGranted(events[..|events| - 1])
          && AgreeFor(before, namespace, naming, reqs, |events| - 1)
          && (events[|events| - 1].Refused? || !AgreeFor(before, namespace, naming, reqs, |events|)))
  }

  // What is left when they do: for each request its batch and its event, all on
  // one admissible node.
  ghost predicate InterceptedOutcome(pod: Pod, namespace: string, reqs: seq<Intercepted>, naming: Naming,
                                     cluster: Cluster, plan: Plan, events: seq<Ledger.Event>) {
    OutcomeSoFar(pod, namespace, reqs, |reqs|, naming, cluster, plan, events)
  }

  // The same for the first k requests
  ghost predicate OutcomeSoFar(pod: Pod, namespace: string, reqs: seq<Intercepted>, k: nat, naming: Naming,
                               cluster: Cluster, plan: Plan, events: seq<Ledger.Event>)
    requires k <= |reqs|
  {
    && Consistent(pod, plan.batches)
    && |plan.batches| == k == |events|
    && (forall j {:trigger InterceptedBatch(pod, reqs[j], naming, plan.batches[j])} :: 0 <= j < k ==>
          InterceptedBatch(pod, reqs[j], naming, plan.batches[j]))
    && (forall j {:trigger Grants(events[j], reqs[j], plan.node)} :: 0 <= j < k ==>
          Grants(events[j], reqs[j], plan.node))
    && (k == 0 ==> plan.node == "")
    && (k > 0 ==> plan.node != "" && Admits(pod, namespace, cluster, plan.node))
  }

  ghost predicate Grants(e: Ledger.Event, req: Intercepted, node: string) {
    e.Extended? && e.cls == req.cls && e.node == node && e.count == Total(req.shares)
  }

  lemma GrantsAreOnNode(pod: Pod, namespace: string, reqs: seq<Intercepted>, k: nat, naming: Naming, cluster: Cluster,
                        plan: Plan, events: seq<Ledger.Event>)
    requires k <= |reqs| && OutcomeSoFar(pod, namespace, reqs, k, naming, cluster, plan, events)
    ensures AllGranted(events) && ConstrainTo(events) == plan.node
  {
    forall j | 0 <= j < |events|
      ensures events[j].Extended? && events[j].node == plan.node
    {
      assert Grants(events[j], reqs[j], plan.node);
    }
  }

  // Each grant of devices in a history left by the mutator found, on its node,
  // as many devices as asked, listed and in no claim, on top of the largest grant
  // still remembered.
  lemma GrantsHadRoom(past: seq<Ledger.Event>, ttl: nat, pod: Pod, namespace: string, reqs: seq<Intercepted>,
                      world: nat -> Snapshot, events: seq<Ledger.Event>, k: nat)
    requires AllTried(past, ttl, pod, namespace, reqs, world, events)
    requires k < |events| && events[k].Extended? && events[k].count > 0
    requires Ledger.IsRun(past + events, ttl)
    requires forall i :: 0 <= i < |past + events| ==> Ledger.NamesPlain((past + events)[i])
    ensures var e, inv := events[k], world(k).inv;
      && inv.slices.Some?
      && |Decisions.ListedPlaces(inv, e.cls, e.node)| - |Decisions.HeldPlaces(inv, e.cls, e.node)| >=
         e.count + Ledger.LargestGrant(past + events[..k], e.cls, e.node, e.start, ttl)
  {
    var all, j, e := past + events, |past| + k, events[k];
    assert all[j] == e && all[..j] == past + events[..k];
    var live := Ledger.Live(Ledger.Replay(all[..j], ttl), e.start, ttl);
    assert IsTried(past, ttl, pod, namespace, reqs, world, events, k);
    assert Ledger.AliveAt(past + events[..k], ttl, e.start, live);
    Decisions.GrantHasRoom(all, ttl, j, world(k).inv, pod, namespace, world(k).cluster, ConstrainTo(events[..k]));
  }

  class Mutator {
    const cfg: Scan.Config
    const intercepts: InterceptMap
    const naming: Naming
    const allocator: Allocator.Allocator
    const store: TemplateStore

    constructor (cfg: Scan.Config, intercepts: InterceptMap, naming: Naming, allocator: Allocator.Allocator,
                 store: TemplateStore)
      requires allocator.cfg == cfg
      ensures this.cfg == cfg && this.intercepts == intercepts && this.naming == naming
      ensures this.allocator == allocator && this.store == store
    {
      this.cfg := cfg;
      this.intercepts := intercepts;
      this.naming := naming;
      this.allocator := allocator;
      this.store := store;
    }

    // ---- phase 1 ------------------------------------------------------------

    // Reserves the pairs and makes sure of their templates.
    method PlanPairs(pod: Pod, namespace: string, count: nat, containers: seq<nat>, snap: Snapshot)
      returns (r: Result<string>, b: Batch, ghost e: Ledger.Event, ghost w: Wanted)
      requires allocator.Valid() && allocator.cfg == cfg && count > 0
      requires containers == Asking(pod.spec.containers, GPU_NIC_PAIR)
      modifies allocator, allocator.clock, store
      ensures allocator.Valid() && allocator.history == old(allocator.history) + [e]
      ensures PairsTried(cfg, old(allocator.history), allocator.ttl, pod, namespace, count, snap, e)
      ensures Extends(old(store.templates), store.templates)
      ensures e.Refused? ==> r.Err?
      ensures !e.Refused? ==>
        && PairGrant(cfg, naming, count, snap, e, w)
        && (r.Ok? <==> Agree(old(store.templates), namespace, w.names, w.specs))
      ensures r.Ok? ==>
        && (e.Pairs? || e.Explicit?) && r.value == e.node && Admits(pod, namespace, snap.cluster, e.node)
        && PairBatch(pod, count, w.requests, b) && TemplatesOf(b.claims) == w.names
        && store.templates == With(old(store.templates), namespace, w.names, w.specs)
        && Backed(store.templates, namespace, w.names, w.specs)
    {
      b := Batch(GPU_NIC_PAIR, containers, [], []);
      var names: seq<string>, made: seq<ClaimSpec>, requests: seq<string>;
      if cfg.explicitMode {
        r, names, made, requests, e := GrantExplicit(pod, namespace, count, snap);
      } else {
        r, names, made, requests, e := GrantRails(pod, namespace, count, snap);
      }
      w := Wanted(names, made, requests);
      if r.Err? {
        return;
      }
      var ok := store.EnsureAll(namespace, names, made);
      if !ok {
        return Err("failed to ensure claim template"), b, e, w;
      }
      WithHolds(old(store.templates), namespace, names, made);
      b := BatchOfPairs(pod, count, containers, names, requests);
    }

    static method BatchOfPairs(pod: Pod, count: nat, containers: seq<nat>, names: seq<string>, requests: seq<string>)
      returns (b: Batch)
      requires containers == Asking(pod.spec.containers, GPU_NIC_PAIR) && |names| == count
      ensures PairBatch(pod, count, requests, b) && TemplatesOf(b.claims) == names
    {
      var refs := RefsOfPairs(count, requests);
      b := Batch(GPU_NIC_PAIR, containers, PairClaims(names), seq(|containers|, k => refs));
      assert TemplatesOf(b.claims) == names;
    }

    method GrantExplicit(pod: Pod, namespace: string, count: nat, snap: Snapshot)
      returns (r: Result<string>, names: seq<string>, made: seq<ClaimSpec>, requests: seq<string>,
               ghost e: Ledger.Event)
      requires allocator.Valid() && allocator.cfg == cfg && cfg.explicitMode
      modifies allocator, allocator.clock
      ensures allocator.Valid() && allocator.history == old(allocator.history) + [e]
      ensures PairsTried(cfg, old(allocator.history), allocator.ttl, pod, namespace, count, snap, e)
      ensures r.Err? <==> e.Refused?
      ensures r.Ok? ==> e.Explicit? && r.value == e.node && Admits(pod, namespace, snap.cluster, e.node)
      ensures r.Ok? ==> PairGrant(cfg, naming, count, snap, e, Wanted(names, made, requests))
    {
      names, made, requests := [], [], [];
      var numaConstrained := NUMAConstrained(pod, count, cfg);
      var granted, ev, choice := allocator.AllocateExplicit(pod, namespace, count, numaConstrained, snap.inv,
                                                           snap.cluster);
      e := ev;
      if granted.Err? {
        return Err("explicit allocation failed"), names, made, requests, e;
      }
      requests := DeviceSelectorKeys(cfg);
      names, made := TemplatesForPairs(granted.value.pairs, requests);
      r := Ok(granted.value.node);
    }

    // The loop over the pairs of a grant
    method TemplatesForPairs(pairs: seq<Allocator.ChosenPair>, roles: seq<string>)
      returns (names: seq<string>, specs: seq<ClaimSpec>)
      requires cfg.pairing.Some? && IsRoles(cfg, roles)
      ensures PairNames(naming, pairs, names) && PairSpecs(cfg, cfg.pairing.value, roles, pairs, specs)
    {
      names, specs := [], [];
      for i := 0 to |pairs|
        invariant PairNames(naming, pairs[..i], names)
        invariant PairSpecs(cfg, cfg.pairing.value, roles, pairs[..i], specs)
      {
        var pair := pairs[i];
        assert pairs[..i + 1] == pairs[..i] + [pair];
        var spec, keys := BuildExplicitPairClaimSpec(pair.nicIndex, pair.rail, pair.devices, cfg);
        RolesUnique(cfg, keys, roles);
        names := names + [naming.explicitPair(pair.nicIndex, pair.rail, pair.devices)];
        specs := specs + [spec];
      }
      assert pairs[..|pairs|] == pairs;
    }

    method GrantRails(pod: Pod, namespace: string, count: nat, snap: Snapshot)
      returns (r: Result<string>, names: seq<string>, made: seq<ClaimSpec>, requests: seq<string>,
               ghost e: Ledger.Event)
      requires allocator.Valid() && allocator.cfg == cfg && !cfg.explicitMode && count > 0
      modifies allocator, allocator.clock
      ensures allocator.Valid() && allocator.history == old(allocator.history) + [e]
      ensures PairsTried(cfg, old(allocator.history), allocator.ttl, pod, namespace, count, snap, e)
      ensures r.Err? <==> e.Refused?
      ensures r.Ok? ==> e.Pairs? && r.value == e.node && Admits(pod, namespace, snap.cluster, e.node)
      ensures r.Ok? ==> e.node != "" && PairGrant(cfg, naming, count, snap, e, Wanted(names, made, requests))
    {
      names, made, requests := [], [], ["gpu", "nic"];
      var numaConstrained := NUMAConstrained(pod, count, cfg);
      var granted, ev, free := allocator.Allocate(pod, namespace, count, numaConstrained, snap.inv, snap.cluster);
      e := ev;
      ghost var live := Ledger.Live(old(allocator.pending), e.start, allocator.ttl);
      if granted.Err? {
        return Err("allocation failed"), names, made, requests, e;
      }
      names, made := TemplatesForRails(granted.value.rails);
      Allocator.RailsGranted(cfg, snap.inv, live, pod, namespace, snap.cluster, count,
                             numaConstrained && !cfg.disableNUMAPacking, e);
      r := Ok(granted.value.node);
    }

    // The loop over the rails of a grant
    method TemplatesForRails(rails: seq<nat>) returns (names: seq<string>, specs: seq<ClaimSpec>)
      ensures RailNames(naming, rails, names) && RailSpecs(cfg, rails, specs)
    {
      names, specs := [], [];
      for i := 0 to |rails|
        invariant RailNames(naming, rails[..i], names) && RailSpecs(cfg, rails[..i], specs)
      {
        assert rails[..i + 1] == rails[..i] + [rails[i]];
        var spec := BuildSinglePairClaimSpec(i, rails[i], cfg);
        names := names + [naming.pair(i, rails[i])];
        specs := specs + [spec];
      }
      assert rails[..|rails|] == rails;
    }

    static method RefsOfPairs(count: nat, requests: seq<string>) returns (refs: seq<ClaimRef>)
      ensures refs == PairRefs(count, requests)
    {
      refs := [];
      for i := 0 to count
        invariant refs == PairRefs(i, requests)
      {
        ghost var before := refs;
        for j := 0 to |requests|
          invariant refs == before +
            seq(j, m requires 0 <= m < j => ClaimRef(PairName(i), if m < |requests| then requests[m] else ""))
        {
          refs := refs + [ClaimRef(PairName(i), requests[j])];
        }
        assert refs == PairRefs(i + 1, requests);
      }
    }

    // ---- phase 2 ------------------------------------------------------------

    // Reserves the devices for one intercepted resource, makes sure of their
    // templates, names the claims and hands them to the containers.
    method PlanIntercepted(pod: Pod, namespace: string, req: Intercepted, constrainTo: string, snap: Snapshot)
      returns (r: Result<string>, b: Batch, ghost e: Ledger.Event)
      requires allocator.Valid() && Total(req.shares) > 0
      modifies allocator, allocator.clock, store
      ensures allocator.Valid() && allocator.history == old(allocator.history) + [e]
      ensures DevicesTried(old(allocator.history), allocator.ttl, pod, namespace, req, constrainTo, snap, e)
      ensures Extends(old(store.templates), store.templates)
      ensures e.Refused? || e.Extended?
      ensures r.Ok? <==>
        !e.Refused? && Agree(old(store.templates), namespace, NamesFor(naming, req), SpecsFor(req))
      ensures r.Ok? ==> store.templates == With(old(store.templates), namespace, NamesFor(naming, req), SpecsFor(req))
      ensures r.Ok? ==> InterceptedBatch(pod, req, naming, b) && r.value != "" && Grants(e, req, r.value)
      ensures r.Ok? ==>
        if constrainTo == "" then Admits(pod, namespace, snap.cluster, r.value) else r.value == constrainTo
    {
      b := Batch(req.resource, [], [], []);
      r, e := GrantDevices(pod, namespace, req, constrainTo, snap);
      if r.Err? {
        return;
      }
      var names, made := TemplatesForDevices(req);
      var ok := store.EnsureAll(namespace, names, made);
      if !ok {
        return Err("failed to ensure extended resource template"), b, e;
      }
      b := BatchOfDevices(pod, req, names);
    }

    method TemplatesForDevices(req: Intercepted) returns (names: seq<string>, specs: seq<ClaimSpec>)
      ensures names == NamesFor(naming, req) && specs == SpecsFor(req)
    {
      names, specs := [], [];
      for i := 0 to Total(req.shares)
        invariant names == NamesFor(naming, req)[..i] && specs == SpecsFor(req)[..i]
      {
        names := names + [naming.extended(i, req.cls)];
        specs := specs + [ExtendedSpec(req.cls)];
      }
    }

    method GrantDevices(pod: Pod, namespace: string, req: Intercepted, constrainTo: string, snap: Snapshot)
      returns (r: Result<string>, ghost e: Ledger.Event)
      requires allocator.Valid() && Total(req.shares) > 0
      modifies allocator, allocator.clock
      ensures allocator.Valid() && allocator.history == old(allocator.history) + [e]
      ensures DevicesTried(old(allocator.history), allocator.ttl, pod, namespace, req, constrainTo, snap, e)
      ensures r.Err? <==> e.Refused?
      ensures r.Ok? ==> r.value != "" && Grants(e, req, r.value)
      ensures r.Ok? ==>
        if constrainTo == "" then Admits(pod, namespace, snap.cluster, r.value) else r.value == constrainTo
    {
      var total := Total(req.shares);
      var granted, ev, free := allocator.AllocateExtendedResource(pod, namespace, total, req.cls, constrainTo,
                                                                 snap.inv, snap.cluster);
      e := ev;
      if granted.Err? {
        return Err("extended resource allocation failed"), e;
      }
      r := granted;
    }

    method BatchOfDevices(pod: Pod, req: Intercepted, names: seq<string>) returns (b: Batch)
      requires names == NamesFor(naming, req)
      ensures InterceptedBatch(pod, req, naming, b) && TemplatesOf(b.claims) == names
    {
      var total := Total(req.shares);
      var claimNames := NameClaims(ClaimNamesOf(pod), req.resource, total);
      var claims := seq(total, i requires 0 <= i < total => PodClaim(claimNames[i], Some(names[i]), map[]));
      assert NamesOf(claims) == claimNames && TemplatesOf(claims) == names;
      var refs := HandOut(claimNames, req.shares);
      b := Batch(req.resource, ContainersOf(req.shares), claims, refs);
    }

    // The loop over claimOffset
    static method HandOut(names: seq<string>, shares: seq<Share>) returns (refs: seq<seq<ClaimRef>>)
      requires Total(shares) <= |names|
      ensures refs == Handout(names, shares)
    {
      refs := [];
      var offset := 0;
      for k := 0 to |shares|
        invariant offset == Total(shares[..k]) <= |names|
        invariant refs == Handout(names, shares[..k])
      {
        assert shares[..k + 1][..k] == shares[..k];
        TotalOfPrefix(shares, k + 1);
        refs := refs + [DeviceRefs(names, offset, shares[k].count)];
        offset := offset + shares[k].count;
      }
      assert shares[..|shares|] == shares;
    }

    // One batch per intercepted resource. The first allocation picks the node,
    // the others must fit there.
    method MutateIntercepted(pod: Pod, namespace: string, reqs: seq<Intercepted>, world: nat -> Snapshot)
      returns (r: Result<(string, seq<Op>)>, ghost plan: Plan, ghost events: seq<Ledger.Event>)
      requires allocator.Valid() && AreShares(pod.spec.containers, intercepts, reqs)
      modifies allocator, allocator.clock, store
      ensures allocator.Valid() && allocator.history == old(allocator.history) + events
      ensures Extends(old(store.templates), store.templates)
      ensures InterceptedDecided(old(allocator.history), allocator.ttl, pod, namespace, reqs, naming, world,
                                 old(store.templates), events, r.Ok?)
      ensures r.Ok? ==> store.templates == StoreFor(old(store.templates), namespace, naming, reqs, |reqs|)
      ensures r.Ok? ==> InterceptedOutcome(pod, namespace, reqs, naming, world(0).cluster, plan, events)
      ensures r.Ok? ==> r.value.0 == plan.node
      ensures r.Ok? ==> ApplyAll(Document(pod), r.value.1) == Some(Document(AfterBatches(pod, plan.batches)))
    {
      var ops: seq<Op>, node, firstPodClaim, added: set<nat> := [], "", true, {};
      plan, events := Plan("", []), [];
      ghost var job := Job(pod, namespace, reqs, naming, world, old(allocator.history), allocator.ttl,
                           old(store.templates));
      RoundsStart(job);
      for k := 0 to |reqs|
        invariant allocator.Valid() && allocator.history == job.past + events
        invariant Extends(old(store.templates), store.templates)
        invariant plan.node == node
        invariant Rounds(job, k, plan, events, store.templates)
        invariant Patching(pod, DoneBefore(reqs, k), plan.batches, firstPodClaim, added, ops)
      {
        var step, b, ev := MutateOne(pod, namespace, reqs[k], node, world(k), firstPodClaim, added, job, k, plan,
                                     events, store.templates, ops);
        if step.Err? {
          events := events + [ev];
          return Err(step.reason), plan, events;
        }
        node := step.value.0;
        ops := ops + step.value.1;
        firstPodClaim := false;
        added := added + set i | i in b.containers;
        plan, events := Plan(node, plan.batches + [b]), events + [ev];
      }
      RoundsEnd(job, plan, events, store.templates);
      r := Ok((node, ops));
    }

    // One pass of the loop of phase 2
    method MutateOne(pod: Pod, namespace: string, req: Intercepted, selected: string, snap: Snapshot,
                     firstPodClaim: bool, added: set<nat>, ghost job: Job, ghost k: nat, ghost plan: Plan,
                     ghost events: seq<Ledger.Event>, ghost templates: Store, ghost ops: seq<Op>)
      returns (r: Result<(string, seq<Op>)>, b: Batch, ghost e: Ledger.Event)
      requires allocator.Valid() && allocator.history == job.past + events && store.templates == templates
      requires IsRound(job, k, pod, namespace, req, snap, naming, allocator.ttl)
      requires req.shares == SharesOf(pod.spec.containers, req.resource) && req.shares != []
      requires req.resource !in DoneBefore(job.reqs, k)
      requires Rounds(job, k, plan, events, templates) && plan.node == selected
      requires Patching(pod, DoneBefore(job.reqs, k), plan.batches, firstPodClaim, added, ops)
      modifies allocator, allocator.clock, store
      ensures allocator.Valid() && allocator.history == job.past + (events + [e])
      ensures Extends(templates, store.templates)
      ensures r.Err? ==> InterceptedDecided(job.past, job.ttl, pod, namespace, job.reqs, naming, job.world, job.stock,
                                            events + [e], false)
      ensures r.Ok? ==>
        && Rounds(job, k + 1, Plan(r.value.0, plan.batches + [b]), events + [e], store.templates)
        && Patching(pod, DoneBefore(job.reqs, k + 1), plan.batches + [b], false, added + (set i | i in b.containers),
                    ops + r.value.1)
    {
      var granted, planned, ev := PlanRound(pod, namespace, req, selected, snap, job, k, plan, events, templates);
      b, e := planned, ev;
      if granted.Err? {
        return Err(granted.reason), b, e;
      }
      var more := PatchOne(pod, b, firstPodClaim, added, DoneBefore(job.reqs, k), plan.batches, ops);
      DoneNext(job.reqs, k);
      r := Ok((granted.value, more));
    }

    // Reservation, templates and batch of one round
    method PlanRound(pod: Pod, namespace: string, req: Intercepted, selected: string, snap: Snapshot, ghost job: Job,
                     ghost k: nat, ghost plan: Plan, ghost events: seq<Ledger.Event>, ghost templates: Store)
      returns (r: Result<string>, b: Batch, ghost e: Ledger.Event)
      requires allocator.Valid() && allocator.history == job.past + events && store.templates == templates
      requires IsRound(job, k, pod, namespace, req, snap, naming, allocator.ttl)
      requires req.shares == SharesOf(pod.spec.containers, req.resource) && req.shares != []
      requires Rounds(job, k, plan, events, templates) && plan.node == selected
      modifies allocator, allocator.clock, store
      ensures allocator.Valid() && allocator.history == job.past + (events + [e])
      ensures Extends(templates, store.templates)
      ensures r.Err? ==> InterceptedDecided(job.past, job.ttl, pod, namespace, job.reqs, naming, job.world, job.stock,
                                            events + [e], false)
      ensures r.Ok? ==> Batches.Requests(pod, b) && b.resource == req.resource
      ensures r.Ok? ==> Rounds(job, k + 1, Plan(r.value, plan.batches + [b]), events + [e], store.templates)
    {
      SharesArePositive(pod, req);
      GrantsAreOnNode(pod, namespace, job.reqs, k, naming, job.world(0).cluster, plan, events);
      r, b, e := PlanIntercepted(pod, namespace, req, selected, snap);
      AppendAssociates(job.past, events, [e]);
      TriedNext(job.past, job.ttl, pod, namespace, job.reqs, job.world, events, e);
      if r.Err? {
        RoundFails(job, events, templates, e);
      } else {
        BatchFitsPod(pod, req, b);
        RoundGoesOn(job, k, plan, events, templates, b, e, r.value);
      }
    }

    // The operations of one batch, behind those already there
    method PatchOne(pod: Pod, b: Batch, firstPodClaim: bool, added: set<nat>, ghost done: set<string>,
                    ghost batches: seq<Batch>, ghost ops: seq<Op>)
      returns (more: seq<Op>)
      requires Patching(pod, done, batches, firstPodClaim, added, ops)
      requires Batches.Requests(pod, b) && b.resource !in done
      ensures Patching(pod, done + {b.resource}, batches + [b], false, added + (set i | i in b.containers), ops + more)
    {
      ghost var cur := AfterBatches(pod, batches);
      more := EmitBatch(pod, b, firstPodClaim, added, cur, done);
      TracksBatch(pod, cur, firstPodClaim, added, done, b);
      ApplyAllConcat(Document(pod), ops, more);
      assert (batches + [b])[..|batches|] == batches;
    }

    // ---- phase 3 and the whole ----------------------------------------------

    // Node affinity and annotation, shared by both phases
    method Finish(pod: Pod, ops: seq<Op>, node: string, ghost plan: Plan) returns (all: seq<Op>)
      requires node == plan.node && Consistent(pod, plan.batches)
      requires ApplyAll(Document(pod), ops) == Some(Document(AfterBatches(pod, plan.batches)))
      ensures Compiles(pod, all, plan)
    {
      ghost var cur := AfterBatches(pod, plan.batches);
      BatchesEffect(pod, plan.batches);
      var pin := BuildNodeAffinityPatch(pod, node, cur);
      var mark := BuildMutatedAnnotationPatch(pod, Pin(cur, node));
      ApplyAllConcat(Document(pod), ops, pin);
      ApplyAllConcat(Document(pod), ops + pin, mark);
      all := ops + pin + mark;
    }

    // Phases 1 and 3 for a pod that asks for pairs
    method MutatePairs(pod: Pod, namespace: string, count: nat, containers: seq<nat>, snap: Snapshot)
      returns (r: Outcome, ghost plan: Plan, ghost events: seq<Ledger.Event>)
      requires allocator.Valid() && allocator.cfg == cfg
      requires containers == Asking(pod.spec.containers, GPU_NIC_PAIR)
      modifies allocator, allocator.clock, store
      ensures allocator.Valid() && allocator.history == old(allocator.history) + events
      ensures Extends(old(store.templates), store.templates)
      ensures PairOutcome(cfg, naming, old(allocator.history), allocator.ttl, pod, namespace, count, snap,
                          old(store.templates), store.templates, r, plan, events)
      ensures r.Patched? ==> Compiles(pod, r.ops, plan) && Admits(pod, namespace, snap.cluster, plan.node)
    {
      plan, events := Plan("", []), [];
      assert allocator.history + [] == allocator.history;
      if !Acceptable(count, AllowsCross(pod), cfg) {
        return Denied("gpu-nic-pair count not acceptable"), plan, events;
      }
      var granted, b, e, w := PlanPairs(pod, namespace, count, containers, snap);
      events := [e];
      if granted.Err? {
        r := Denied(granted.reason);
        assert !e.Refused? ==> PairResult(cfg, naming, pod, namespace, count, snap, old(store.templates),
                                          store.templates, r, plan, e, w);
        return;
      }
      AskingFitsPod(pod, GPU_NIC_PAIR, b);
      plan := Plan(granted.value, [b]);
      var all := CompileOne(pod, b, granted.value);
      r := Patched(all);
      assert PairResult(cfg, naming, pod, namespace, count, snap, old(store.templates), store.templates, r, plan, e, w);
    }

    // The operations for a single batch and the pin
    method CompileOne(pod: Pod, b: Batch, node: string) returns (ops: seq<Op>)
      requires Batches.Requests(pod, b)
      ensures Compiles(pod, ops, Plan(node, [b]))
    {
      ops := EmitBatch(pod, b, true, {}, pod, {});
      assert [b][..0] == [];
      assert AfterBatches(pod, []) == pod;
      ops := Finish(pod, ops, node, Plan(node, [b]));
    }

    // Mutate. What becomes of the pod is decided as MutateResult says, and a patch
    // compiles the plan.
    method Mutate(pod: Pod, namespace: string, world: nat -> Snapshot)
      returns (r: Outcome, ghost plan: Plan, ghost events: seq<Ledger.Event>)
      requires allocator.Valid() && allocator.cfg == cfg
      modifies allocator, allocator.clock, store
      ensures allocator.Valid() && allocator.history == old(allocator.history) + events
      ensures Extends(old(store.templates), store.templates)
      ensures MutateResult(cfg, intercepts, naming, old(allocator.history), allocator.ttl, pod, namespace, world,
                           old(store.templates), store.templates, r, plan, events)
      ensures r.Patched? ==> Compiles(pod, r.ops, plan)
    {
      plan, events := Plan("", []), [];
      assert allocator.history + [] == allocator.history;
      if Annotation(pod, MUTATED) == "true" {
        return Unchanged, plan, events;
      }
      var pairCount, pairContainers := ExtractGPUNICPairCount(pod);
      var reqs := ExtractInterceptedResources(pod, intercepts);
      ExtractionFindsAll(pod, intercepts, reqs);
      if pairCount == 0 && reqs == [] {
        return Unchanged, plan, events;
      }
      if pairCount > 0 && reqs != [] {
        return Denied("pairs and intercepted resources are mutually exclusive"), plan, events;
      }
      if pairCount > 0 {
        r, plan, events := MutatePairs(pod, namespace, pairCount, pairContainers, world(0));
      } else {
        r, plan, events := MutateExtracted(pod, namespace, reqs, world);
      }
    }

    // Phases 2 and 3 for the extracted requests
    method MutateExtracted(pod: Pod, namespace: string, reqs: seq<Intercepted>, world: nat -> Snapshot)
      returns (r: Outcome, ghost plan: Plan, ghost events: seq<Ledger.Event>)
      requires allocator.Valid() && IsExtraction(pod.spec.containers, intercepts, reqs)
      modifies allocator, allocator.clock, store
      ensures allocator.Valid() && allocator.history == old(allocator.history) + events
      ensures Extends(old(store.templates), store.templates)
      ensures InterceptedResult(intercepts, naming, old(allocator.history), allocator.ttl, pod, namespace, world,
                                old(store.templates), store.templates, r, plan, events)
      ensures r.Patched? ==> Compiles(pod, r.ops, plan)
      ensures r.Patched? && reqs != [] ==> plan.node != "" && Admits(pod, namespace, world(0).cluster, plan.node)
      ensures reqs == [] ==> r.Patched? && plan.node == ""
    {
      var done, p, es := MutateIntercepted(pod, namespace, reqs, world);
      plan, events := p, es;
      if done.Err? {
        r := Denied(done.reason);
      } else {
        var all := Finish(pod, done.value.1, done.value.0, plan);
        r := Patched(all);
      }
      assert ResultFor(reqs, naming, old(allocator.history), allocator.ttl, pod, namespace, world,
                       old(store.templates), store.templates, r, plan, events);
    }

    // MutateExtOnly: the same for intercepted resources alone; pairs are left
    // in the pod.
    method MutateExtOnly(pod: Pod, namespace: string, world: nat -> Snapshot)
      returns (r: Outcome, ghost plan: Plan, ghost events: seq<Ledger.Event>)
      requires allocator.Valid()
      modifies allocator, allocator.clock, store
      ensures allocator.Valid() && allocator.history == old(allocator.history) + events
      ensures Extends(old(store.templates), store.templates)
      ensures r.Unchanged? <==> Annotation(pod, MUTATED) == "true" || !AsksIntercepted(pod, intercepts)
      ensures r.Unchanged? ==> events == []
      ensures !r.Unchanged? ==>
        InterceptedResult(intercepts, naming, old(allocator.history), allocator.ttl, pod, namespace, world,
                          old(store.templates), store.templates, r, plan, events)
      ensures r.Patched? ==> Compiles(pod, r.ops, plan) && Admits(pod, namespace, world(0).cluster, plan.node)
    {
      plan, events := Plan("", []), [];
      assert allocator.history + [] == allocator.history;
      if Annotation(pod, MUTATED) == "true" {
        return Unchanged, plan, events;
      }
      var reqs := ExtractInterceptedResources(pod, intercepts);
      ExtractionFindsAll(pod, intercepts, reqs);
      if reqs == [] {
        return Unchanged, plan, events;
      }
      r, plan, events := MutateExtracted(pod, namespace, reqs, world);
    }
  }

  predicate AsksIntercepted(pod: Pod, intercepts: InterceptMap) {
    exists name :: name in intercepts && SharesOf(pod.spec.containers, name) != []
  }

  predicate AsksSomething(pod: Pod, intercepts: InterceptMap) {
    Sum(pod.spec.containers, GPU_NIC_PAIR) > 0 || AsksIntercepted(pod, intercepts)
  }

  // Pair requests that add up to less than nothing, and no other request
  predicate OwesPairs(pod: Pod, intercepts: InterceptMap) {
    Sum(pod.spec.containers, GPU_NIC_PAIR) < 0 && !AsksIntercepted(pod, intercepts)
  }

  lemma ExtractionFindsAll(pod: Pod, intercepts: InterceptMap, reqs: seq<Intercepted>)
    requires IsExtraction(pod.spec.containers, intercepts, reqs)
    ensures reqs != [] <==> AsksIntercepted(pod, intercepts)
  {
    if reqs != [] {
      assert SharesOf(pod.spec.containers, reqs[0].resource) != [];
    }
  }

  // What becomes of any pod: left alone when it was mutated before or asks for
  // nothing, denied when it asks for both kinds, and otherwise decided by the one
  // kind it asks for. A pod that owes pairs counts as asking for no intercepted
  // resources.
  ghost predicate MutateResult(cfg: Scan.Config, intercepts: InterceptMap, naming: Naming, past: seq<Ledger.Event>,
                               ttl: nat, pod: Pod, namespace: string, world: nat -> Snapshot, before: Store,
                               after: Store, r: Outcome, plan: Plan, events: seq<Ledger.Event>) {
    var count := Sum(pod.spec.containers, GPU_NIC_PAIR);
    if Annotation(pod, MUTATED) == "true" || (count == 0 && !AsksIntercepted(pod, intercepts)) then
      r.Unchanged? && events == []
    else if count > 0 && AsksIntercepted(pod, intercepts) then r.Denied? && events == []
    else if count > 0 then
      PairOutcome(cfg, naming, past, ttl, pod, namespace, count, world(0), before, after, r, plan, events)
    else InterceptedResult(intercepts, naming, past, ttl, pod, namespace, world, before, after, r, plan, events)
  }

  // What becomes of a pod asking for intercepted resources, in some order of
  // the resources: patched exactly when all requests go through.
  ghost predicate InterceptedResult(intercepts: InterceptMap, naming: Naming, past: seq<Ledger.Event>, ttl: nat,
                                    pod: Pod, namespace: string, world: nat -> Snapshot, before: Store, after: Store,
                                    r: Outcome, plan: Plan, events: seq<Ledger.Event>) {
    exists reqs :: IsExtraction(pod.spec.containers, intercepts, reqs) &&
                   ResultFor(reqs, naming, past, ttl, pod, namespace, world, before, after, r, plan, events)
  }

  ghost predicate ResultFor(reqs: seq<Intercepted>, naming: Naming, past: seq<Ledger.Event>, ttl: nat, pod: Pod,
                            namespace: string, world: nat -> Snapshot, before: Store, after: Store, r: Outcome,
                            plan: Plan, events: seq<Ledger.Event>) {
    && !r.Unchanged?
    && InterceptedDecided(past, ttl, pod, namespace, reqs, naming, world, before, events, r.Patched?)
    && (r.Patched? ==>
          && InterceptedOutcome(pod, namespace, reqs, naming, world(0).cluster, plan, events)
          && after == StoreFor(before, namespace, naming, reqs, |reqs|))
  }

  // ---- nodes with and without a name ----------------------------------------

  // Nodes have names, as Kubernetes requires.
  predicate NodesNamed(cluster: Cluster) {
    cluster.nodes.Some? ==> forall n :: n in cluster.nodes.value ==> n.name != ""
  }

  // A pod that owes pairs is always patched, and pinned to a node without a name.
  lemma OwingPodIsPatched(cfg: Scan.Config, intercepts: InterceptMap, naming: Naming, past: seq<Ledger.Event>,
                          ttl: nat, pod: Pod, namespace: string, world: nat -> Snapshot, before: Store, after: Store,
                          r: Outcome, plan: Plan, events: seq<Ledger.Event>)
    requires MutateResult(cfg, intercepts, naming, past, ttl, pod, namespace, world, before, after, r, plan, events)
    requires Annotation(pod, MUTATED) != "true" && OwesPairs(pod, intercepts)
    ensures r.Patched? && plan.node == "" && events == []
  {
    var reqs :| IsExtraction(pod.spec.containers, intercepts, reqs) &&
                ResultFor(reqs, naming, past, ttl, pod, namespace, world, before, after, r, plan, events);
    ExtractionFindsAll(pod, intercepts, reqs);
  }

  // A patched pod is pinned to a node with a name exactly when it asks for
  // something, and then to one that admits it.
  lemma PatchedNode(cfg: Scan.Config, intercepts: InterceptMap, naming: Naming, past: seq<Ledger.Event>, ttl: nat,
                    pod: Pod, namespace: string, world: nat -> Snapshot, before: Store, after: Store, r: Outcome,
                    plan: Plan, events: seq<Ledger.Event>)
    requires MutateResult(cfg, intercepts, naming, past, ttl, pod, namespace, world, before, after, r, plan, events)
    requires r.Patched?
    ensures NodesNamed(world(0).cluster) ==> (plan.node != "" <==> AsksSomething(pod, intercepts))
    ensures AsksSomething(pod, intercepts) ==> Admits(pod, namespace, world(0).cluster, plan.node)
  {
    NamelessIsNotAdmitted(pod, namespace, world(0).cluster);
    if Sum(pod.spec.containers, GPU_NIC_PAIR) <= 0 {
      var reqs :| IsExtraction(pod.spec.containers, intercepts, reqs) &&
                  ResultFor(reqs, naming, past, ttl, pod, namespace, world, before, after, r, plan, events);
      ExtractionFindsAll(pod, intercepts, reqs);
    }
  }

  lemma NamelessIsNotAdmitted(pod: Pod, namespace: string, cluster: Cluster)
    ensures NodesNamed(cluster) ==> !Admits(pod, namespace, cluster, "")
  {
    if Admits(pod, namespace, cluster, "") {
      NamedByListed(cluster.nodes.value, "");
    }
  }

  lemma {:induction false} NamedByListed(nodes: seq<Node>, name: string)
    requires name in ByName(nodes)
    ensures exists n :: n in nodes && n.name == name
  {
    var last := nodes[|nodes| - 1];
    if last.name != name {
      NamedByListed(nodes[..|nodes| - 1], name);
    } else {
      assert last in nodes;
    }
  }

  // A pod that runs into it: one container that asks for -1 pairs.
  lemma NegativePairs(c: Container, pod: Pod, intercepts: InterceptMap)
    requires c.resources.requests == Some(map[GPU_NIC_PAIR := -1])
    requires pod.spec.containers == [c] && GPU_NIC_PAIR !in intercepts && pod.meta.annotations.None?
    ensures Annotation(pod, MUTATED) != "true" && OwesPairs(pod, intercepts)
  {
    assert [c][..0] == [];
    assert Sum([], GPU_NIC_PAIR) == 0;
    forall name | name in intercepts
      ensures SharesOf([c], name) == []
    {
      assert SharesOf([], name) == [];
    }
  }

  // ---- the loop of phase 2 --------------------------------------------------

  lemma AskingFitsPod(pod: Pod, name: string, b: Batch)
    requires b.resource == name && b.containers == Asking(pod.spec.containers, name) && |b.refs| == |b.containers|
    ensures Batches.Requests(pod, b)
  {
    AskingFacts(pod.spec.containers, name);
    forall k | 0 <= k < |b.containers|
      ensures b.containers[k] < |pod.spec.containers| && Asks(pod.spec.containers[b.containers[k]], name)
    {
      assert b.containers[k] == Asking(pod.spec.containers, name)[k];
    }
  }

  // What the loop works on
  datatype Job = Job(pod: Pod, namespace: string, reqs: seq<Intercepted>, naming: Naming, world: nat -> Snapshot,
                     past: seq<Ledger.Event>, ttl: nat, stock: Store)

  // The names of the first k resources
  function DoneBefore(reqs: seq<Intercepted>, k: nat): set<string>
    requires k <= |reqs|
  {
    set j | 0 <= j < k :: reqs[j].resource
  }

  lemma DoneNext(reqs: seq<Intercepted>, k: nat)
    requires k < |reqs|
    ensures DoneBefore(reqs, k + 1) == DoneBefore(reqs, k) + {reqs[k].resource}
  {
  }

  // The operations so far and what they leave of the pod
  ghost predicate Patching(pod: Pod, done: set<string>, batches: seq<Batch>, first: bool, added: set<nat>,
                           ops: seq<Op>) {
    && Tracks(pod, AfterBatches(pod, batches), first, added, done)
    && ApplyAll(Document(pod), ops) == Some(Document(AfterBatches(pod, batches)))
  }

  // The calls, grants and templates of the first k rounds, all of which went
  // through
  ghost predicate Rounds(job: Job, k: nat, plan: Plan, events: seq<Ledger.Event>, templates: Store) {
    && k <= |job.reqs|
    && (forall i, j :: 0 <= i < j < |job.reqs| ==> job.reqs[i].resource != job.reqs[j].resource)
    && OutcomeSoFar(job.pod, job.namespace, job.reqs, k, job.naming, job.world(0).cluster, plan, events)
    && AllTried(job.past, job.ttl, job.pod, job.namespace, job.reqs, job.world, events)
    && AgreeFor(job.stock, job.namespace, job.naming, job.reqs, k)
    && templates == StoreFor(job.stock, job.namespace, job.naming, job.reqs, k)
  }

  ghost predicate IsRound(job: Job, k: nat, pod: Pod, namespace: string, req: Intercepted, snap: Snapshot,
                          naming: Naming, ttl: nat) {
    && k < |job.reqs| && job.reqs[k] == req && job.world(k) == snap
    && job.pod == pod && job.namespace == namespace && job.naming == naming && job.ttl == ttl
  }

  lemma RoundsStart(job: Job)
    requires forall i, j :: 0 <= i < j < |job.reqs| ==> job.reqs[i].resource != job.reqs[j].resource
    ensures Rounds(job, 0, Plan("", []), [], job.stock) && job.past + [] == job.past
    ensures Patching(job.pod, DoneBefore(job.reqs, 0), [], true, {}, [])
  {
  }

  lemma RoundsEnd(job: Job, plan: Plan, events: seq<Ledger.Event>, templates: Store)
    requires Rounds(job, |job.reqs|, plan, events, templates)
    ensures InterceptedDecided(job.past, job.ttl, job.pod, job.namespace, job.reqs, job.naming, job.world, job.stock,
                               events, true)
  {
    GrantsAreOnNode(job.pod, job.namespace, job.reqs, |job.reqs|, job.naming, job.world(0).cluster, plan, events);
  }

  lemma TriedNext(past: seq<Ledger.Event>, ttl: nat, pod: Pod, namespace: string, reqs: seq<Intercepted>,
                  world: nat -> Snapshot, events: seq<Ledger.Event>, e: Ledger.Event)
    requires AllTried(past, ttl, pod, namespace, reqs, world, events) && |events| < |reqs|
    requires DevicesTried(past + events, ttl, pod, namespace, reqs[|events|], ConstrainTo(events), world(|events|), e)
    ensures AllTried(past, ttl, pod, namespace, reqs, world, events + [e])
  {
    var longer := events + [e];
    forall k: nat | k < |longer|
      ensures IsTried(past, ttl, pod, namespace, reqs, world, longer, k)
    {
      if k < |events| {
        assert longer[..k] == events[..k];
        assert IsTried(past, ttl, pod, namespace, reqs, world, events, k);
      } else {
        assert longer[..k] == events;
      }
    }
  }

  lemma RoundFails(job: Job, events: seq<Ledger.Event>, templates: Store, e: Ledger.Event)
    requires |events| < |job.reqs| && AllGranted(events) && (e.Refused? || e.Extended?)
    requires AllTried(job.past, job.ttl, job.pod, job.namespace, job.reqs, job.world, events + [e])
    requires AgreeFor(job.stock, job.namespace, job.naming, job.reqs, |events|)
    requires templates == StoreFor(job.stock, job.namespace, job.naming, job.reqs, |events|)
    requires e.Refused? ||
      !Agree(templates, job.namespace, NamesFor(job.naming, job.reqs[|events|]), SpecsFor(job.reqs[|events|]))
    ensures InterceptedDecided(job.past, job.ttl, job.pod, job.namespace, job.reqs, job.naming, job.world, job.stock,
                               events + [e], false)
  {
    var k, all := |events|, events + [e];
    AgreeForNext(job.stock, job.namespace, job.naming, job.reqs, k);
    assert all[..k] == events && all[k] == e;
    if !e.Refused? {
      DisagreementStays(job.stock, job.namespace, job.naming, job.reqs, k + 1, |job.reqs|);
    }
  }

  lemma AgreeForFewer(before: Store, namespace: string, naming: Naming, reqs: seq<Intercepted>, k: nat)
    requires k < |reqs| && AgreeFor(before, namespace, naming, reqs, k + 1)
    ensures AgreeFor(before, namespace, naming, reqs, k)
  {
    AgreeForNext(before, namespace, naming, reqs, k);
  }

  // A template that diverges keeps diverging.
  lemma {:induction false} DisagreementStays(before: Store, namespace: string, naming: Naming, reqs: seq<Intercepted>,
                                             k: nat, n: nat)
    requires k <= n <= |reqs| && !AgreeFor(before, namespace, naming, reqs, k)
    ensures !AgreeFor(before, namespace, naming, reqs, n)
  {
    if k < n {
      DisagreementStays(before, namespace, naming, reqs, k, n - 1);
      if AgreeFor(before, namespace, naming, reqs, n) {
        AgreeForFewer(before, namespace, naming, reqs, n - 1);
      }
    }
  }

  lemma RoundGoesOn(job: Job, k: nat, plan: Plan, events: seq<Ledger.Event>, templates: Store, b: Batch,
                    e: Ledger.Event, node: string)
    requires Rounds(job, k, plan, events, templates) && k < |job.reqs| && node != ""
    requires AllTried(job.past, job.ttl, job.pod, job.namespace, job.reqs, job.world, events + [e])
    requires Agree(templates, job.namespace, NamesFor(job.naming, job.reqs[k]), SpecsFor(job.reqs[k]))
    requires InterceptedBatch(job.pod, job.reqs[k], job.naming, b) && Batches.Requests(job.pod, b)
    requires Grants(e, job.reqs[k], node)
    requires if plan.node == "" then Admits(job.pod, job.namespace, job.world(k).cluster, node) else node == plan.node
    ensures Rounds(job, k + 1, Plan(node, plan.batches + [b]), events + [e],
                   With(templates, job.namespace, NamesFor(job.naming, job.reqs[k]), SpecsFor(job.reqs[k])))
  {
    AgreeForNext(job.stock, job.namespace, job.naming, job.reqs, k);
    OutcomeStep(job.pod, job.namespace, job.reqs, k, job.naming, job.world(0).cluster, plan, events, b, e, node);
  }

  lemma OutcomeStep(pod: Pod, namespace: string, reqs: seq<Intercepted>, k: nat, naming: Naming, cluster: Cluster,
                    plan: Plan, events: seq<Ledger.Event>, b: Batch, e: Ledger.Event, node: string)
    requires k < |reqs| && OutcomeSoFar(pod, namespace, reqs, k, naming, cluster, plan, events)
    requires InterceptedBatch(pod, reqs[k], naming, b) && Grants(e, reqs[k], node) && node != ""
    requires if k == 0 then Admits(pod, namespace, cluster, node) else node == plan.node
    requires Batches.Requests(pod, b) && forall j :: 0 <= j < k ==> reqs[j].resource != reqs[k].resource
    ensures OutcomeSoFar(pod, namespace, reqs, k + 1, naming, cluster, Plan(node, plan.batches + [b]), events + [e])
  {
    forall j | 0 <= j < k
      ensures plan.batches[j].resource != b.resource
    {
      assert InterceptedBatch(pod, reqs[j], naming, plan.batches[j]);
    }
  }

  lemma SharesArePositive(pod: Pod, req: Intercepted)
    requires req.shares == SharesOf(pod.spec.containers, req.resource) && req.shares != []
    ensures Total(req.shares) > 0
  {
    SharesFacts(pod.spec.containers, req.resource);
    assert req.shares[|req.shares| - 1].count > 0;
  }

  lemma BatchFitsPod(pod: Pod, req: Intercepted, b: Batch)
    requires req.shares == SharesOf(pod.spec.containers, req.resource)
    requires b.resource == req.resource && b.containers == ContainersOf(req.shares) && |b.refs| == |b.containers|
    ensures Batches.Requests(pod, b)
  {
    SharesFacts(pod.spec.containers, req.resource);
    forall k | 0 <= k < |b.containers|
      ensures b.containers[k] < |pod.spec.containers| && Asks(pod.spec.containers[b.containers[k]], b.resource)
    {
      assert b.containers[k] == req.shares[k].container;
    }
  }

  lemma {:induction false} TotalOfPrefix(shares: seq<Share>, k: nat)
    requires k <= |shares|
    ensures Total(shares[..k]) <= Total(shares)
  {
    if k < |shares| {
      var n := |shares| - 1;
      assert shares[..n][..k] == shares[..k];
      TotalOfPrefix(shares[..n], k);
    } else {
      assert shares[..k] == shares;
    }
  }
}
