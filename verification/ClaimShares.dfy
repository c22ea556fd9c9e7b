// How the claims for intercepted resources are named and shared among the containers of a pod.
module ClaimShares {
  import opened Sorting
  import opened Pods
  import opened Builders
  import opened Batches
  import opened Requests
  import opened ClaimNames
  import opened Mutator
  import opened Templates
  import opened Basics
  import Constraints
  import Ledger

  // ---- names ----------------------------------------------------------------

  // Batch k belongs to request k: so many new claims, named as the resource says
  ghost predicate IsBatchFor(pod: Pod, req: Intercepted, b: Batch) {
    && req.shares == SharesOf(pod.spec.containers, req.resource) && req.shares != []
    && b.containers == ContainersOf(req.shares) && |b.claims| == Total(req.shares)
    && Named(ClaimNamesOf(pod), req.resource, NamesOf(b.claims))
    && b.refs == Handout(NamesOf(b.claims), req.shares)
  }

  ghost predicate AreBatchesFor(pod: Pod, reqs: seq<Intercepted>, batches: seq<Batch>) {
    && |batches| == |reqs|
    && forall k {:trigger IsBatchFor(pod, reqs[k], batches[k])} :: 0 <= k < |reqs| ==>
         IsBatchFor(pod, reqs[k], batches[k])
  }

  lemma OutcomeGivesBatches(pod: Pod, namespace: string, intercepts: InterceptMap, reqs: seq<Intercepted>,
                            naming: Naming, cluster: Constraints.Cluster, plan: Plan, events: seq<Ledger.Event>)
    requires AreShares(pod.spec.containers, intercepts, reqs)
    requires InterceptedOutcome(pod, namespace, reqs, naming, cluster, plan, events)
    ensures AreBatchesFor(pod, reqs, plan.batches)
  {
    forall k | 0 <= k < |reqs|
      ensures IsBatchFor(pod, reqs[k], plan.batches[k])
    {
      assert InterceptedBatch(pod, reqs[k], naming, plan.batches[k]);
    }
  }

  // The names of all new claims
  function NewNames(batches: seq<Batch>): seq<string> {
    NamesOf(AllClaims(batches))
  }

  lemma NewNamesSnoc(batches: seq<Batch>, b: Batch)
    ensures NewNames(batches + [b]) == NewNames(batches) + NamesOf(b.claims)
  {
    assert (batches + [b])[..|batches|] == batches;
  }

  lemma {:induction false} NewNamesMembers(batches: seq<Batch>, n: string)
    ensures n in NewNames(batches) <==> exists k :: 0 <= k < |batches| && n in NamesOf(batches[k].claims)
  {
    if batches != [] {
      var m := |batches| - 1;
      NewNamesMembers(batches[..m], n);
      NewNamesSnoc(batches[..m], batches[m]);
      assert batches == batches[..m] + [batches[m]];
    }
  }

  lemma RepeatsInConcat<T>(a: seq<T>, b: seq<T>)
    ensures NoRepeats(a + b) <==> NoRepeats(a) && NoRepeats(b) && forall x :: x in a ==> x !in b
  {
    var c := a + b;
    assert forall i :: 0 <= i < |a| ==> c[i] == a[i];
    assert forall i :: 0 <= i < |b| ==> c[|a| + i] == b[i];
    if NoRepeats(c) {
      NoRepeatsParts(a, b);
    } else {
      var i, j :| 0 <= i < j < |c| && c[i] == c[j];
      assert i < |a| ==> c[i] in a;
      assert j >= |a| ==> c[j] in b;
    }
  }

  lemma NoRepeatsParts<T>(a: seq<T>, b: seq<T>)
    requires NoRepeats(a + b)
    ensures NoRepeats(a) && NoRepeats(b) && forall x :: x in a ==> x !in b
  {
    var c := a + b;
    forall i, j | 0 <= i < j < |a|
      ensures a[i] != a[j]
    {
      assert c[i] == a[i] && c[j] == a[j];
    }
    forall i, j | 0 <= i < j < |b|
      ensures b[i] != b[j]
    {
      assert c[|a| + i] == b[i] && c[|a| + j] == b[j];
    }
    forall i, j | 0 <= i < |a| && 0 <= j < |b|
      ensures a[i] != b[j]
    {
      assert c[i] == a[i] && c[|a| + j] == b[j];
    }
  }

  // The resources stay apart once escaped.
  predicate EscapesDiffer(reqs: seq<Intercepted>) {
    forall k, l :: 0 <= k < l < |reqs| ==> EscapeClaim(reqs[k].resource) != EscapeClaim(reqs[l].resource)
  }

  lemma BatchNames(pod: Pod, req: Intercepted, b: Batch)
    requires IsBatchFor(pod, req, b)
    ensures NamesOf(b.claims) != [] && NoRepeats(NamesOf(b.claims))
    ensures forall n :: n in NamesOf(b.claims) ==> n !in ClaimNamesOf(pod)
  {
    SharesArePositive(pod, req);
    NamesAreFresh(ClaimNamesOf(pod), req.resource, NamesOf(b.claims));
  }

  lemma ApartExactly(pod: Pod, reqs: seq<Intercepted>, batches: seq<Batch>, k: nat, l: nat)
    requires AreBatchesFor(pod, reqs, batches) && k < |reqs| && l < |reqs|
    ensures Disjoint(NamesOf(batches[k].claims), NamesOf(batches[l].claims)) <==>
      EscapeClaim(reqs[k].resource) != EscapeClaim(reqs[l].resource)
  {
    assert IsBatchFor(pod, reqs[k], batches[k]) && IsBatchFor(pod, reqs[l], batches[l]);
    BatchNames(pod, reqs[k], batches[k]);
    BatchNames(pod, reqs[l], batches[l]);
    ResourcesShareNoName(ClaimNamesOf(pod), reqs[k].resource, NamesOf(batches[k].claims), reqs[l].resource,
                         NamesOf(batches[l].claims));
  }

  // None of the new names is one the pod had, and no two of them are the same
  // exactly when the resources stay apart once escaped.
  lemma {:induction false} NewNamesDiffer(pod: Pod, reqs: seq<Intercepted>, batches: seq<Batch>)
    requires AreBatchesFor(pod, reqs, batches)
    ensures forall n :: n in NewNames(batches) ==> n !in ClaimNamesOf(pod)
    ensures NoRepeats(NewNames(batches)) <==> EscapesDiffer(reqs)
  {
    if reqs != [] {
      var m := |reqs| - 1;
      NewNamesDiffer(pod, reqs[..m], batches[..m]);
      NewNamesSnoc(batches[..m], batches[m]);
      assert batches == batches[..m] + [batches[m]];
      assert IsBatchFor(pod, reqs[m], batches[m]);
      BatchNames(pod, reqs[m], batches[m]);
      RepeatsInConcat(NewNames(batches[..m]), NamesOf(batches[m].claims));
      DisjointFromEarlier(pod, reqs, batches, m);
    }
  }

  lemma DisjointFromEarlier(pod: Pod, reqs: seq<Intercepted>, batches: seq<Batch>, m: nat)
    requires AreBatchesFor(pod, reqs, batches) && m < |reqs|
    ensures Disjoint(NewNames(batches[..m]), NamesOf(batches[m].claims)) <==>
      forall k :: 0 <= k < m ==> EscapeClaim(reqs[k].resource) != EscapeClaim(reqs[m].resource)
  {
    forall k | 0 <= k < m
      ensures Disjoint(NamesOf(batches[k].claims), NamesOf(batches[m].claims)) <==>
        EscapeClaim(reqs[k].resource) != EscapeClaim(reqs[m].resource)
    {
      ApartExactly(pod, reqs, batches, k, m);
    }
    forall n
      ensures n in NewNames(batches[..m]) <==> exists k :: 0 <= k < m && n in NamesOf(batches[k].claims)
    {
      NewNamesMembers(batches[..m], n);
      assert forall k :: 0 <= k < m ==> batches[..m][k] == batches[k];
    }
    if Disjoint(NewNames(batches[..m]), NamesOf(batches[m].claims)) {
      forall k | 0 <= k < m
        ensures Disjoint(NamesOf(batches[k].claims), NamesOf(batches[m].claims))
      {
      }
    }
  }

  // ---- shares ---------------------------------------------------------------

  // What a container gets for one request
  lemma RefsOfContainer(pod: Pod, req: Intercepted, b: Batch, i: nat)
    requires IsBatchFor(pod, req, b) && i < |pod.spec.containers|
    ensures |RefsOf(b, i)| == Positive(pod.spec.containers[i], req.resource)
    ensures i in b.containers <==> Positive(pod.spec.containers[i], req.resource) > 0
  {
    SharesFacts(pod.spec.containers, req.resource);
    HandoutCounts(NamesOf(b.claims), req.shares);
    var amount := Amount(pod.spec.containers[i], req.resource);
    if amount > 0 {
      var k :| 0 <= k < |req.shares| && req.shares[k] == Share(i, amount);
      assert b.containers[k] == i;
    }
    if i in b.containers {
      var k := IndexOf(b.containers, i);
      assert req.shares[k].container == i;
    }
  }

  lemma {:induction false} AllRefsMembers(batches: seq<Batch>, i: nat, x: ClaimRef)
    ensures x in AllRefs(batches, i) <==> exists k :: 0 <= k < |batches| && x in RefsOf(batches[k], i)
  {
    if batches != [] {
      var m := |batches| - 1;
      AllRefsMembers(batches[..m], i, x);
      assert forall k :: 0 <= k < m ==> batches[..m][k] == batches[k];
    }
  }

  // A reference a container gets for a request is to one of its claims.
  lemma RefsAreNamed(pod: Pod, req: Intercepted, b: Batch, i: nat, x: ClaimRef)
    requires IsBatchFor(pod, req, b) && x in RefsOf(b, i)
    ensures x.name in NamesOf(b.claims) && x.request == "device"
  {
    var a := IndexOf(b.containers, i);
    var p :| 0 <= p < |b.refs[a]| && b.refs[a][p] == x;
    RefsLieBelow(NamesOf(b.claims), req.shares, a, p);
    var m :| 0 <= m < Total(req.shares) && b.refs[a][p] == ClaimRef(NamesOf(b.claims)[m], "device");
  }

  // No reference for a request is in two containers.
  lemma RefsNotShared(pod: Pod, req: Intercepted, b: Batch, i: nat, j: nat, x: ClaimRef)
    requires IsBatchFor(pod, req, b) && x in RefsOf(b, i) && x in RefsOf(b, j)
    ensures i == j
  {
    BatchNames(pod, req, b);
    var a, c := IndexOf(b.containers, i), IndexOf(b.containers, j);
    var p :| 0 <= p < |b.refs[a]| && b.refs[a][p] == x;
    var q :| 0 <= q < |b.refs[c]| && b.refs[c][q] == x;
    NoSharedClaim(NamesOf(b.claims), req.shares, a, p, c, q);
  }

  // Every claim made for a request is referenced.
  lemma {:induction false} ClaimIsReferenced(pod: Pod, req: Intercepted, b: Batch, n: string) returns (i: nat)
    requires IsBatchFor(pod, req, b) && n in NamesOf(b.claims)
    ensures i < |pod.spec.containers| && ClaimRef(n, "device") in RefsOf(b, i)
  {
    SharesFacts(pod.spec.containers, req.resource);
    var a := HolderHasRef(b, NamesOf(b.claims), req.shares, n);
    i := req.shares[a].container;
  }

  lemma HolderHasRef(b: Batch, names: seq<string>, shares: seq<Share>, n: string) returns (a: nat)
    requires Total(shares) == |names| && n in names
    requires b.containers == ContainersOf(shares) && b.refs == Handout(names, shares)
    requires forall k, l :: 0 <= k < l < |shares| ==> shares[k].container < shares[l].container
    ensures a < |shares| && ClaimRef(n, "device") in RefsOf(b, shares[a].container)
  {
    a := HolderOf(names, shares, n);
    assert b.containers[a] == shares[a].container;
    OnlyIndex(b.containers, shares, a);
  }

  lemma HolderOf(names: seq<string>, shares: seq<Share>, n: string) returns (a: nat)
    requires Total(shares) == |names| && n in names
    ensures a < |shares| && ClaimRef(n, "device") in Handout(names, shares)[a]
  {
    var m :| 0 <= m < |names| && names[m] == n;
    HandoutJoins(names, shares);
    assert Flatten(Handout(names, shares))[m] == ClaimRef(n, "device");
    a := FlattenMember(Handout(names, shares), ClaimRef(n, "device"));
  }

  lemma OnlyIndex(containers: seq<nat>, shares: seq<Share>, a: nat)
    requires containers == ContainersOf(shares) && a < |shares|
    requires forall k, l :: 0 <= k < l < |shares| ==> shares[k].container < shares[l].container
    ensures containers[a] in containers && IndexOf(containers, containers[a]) == a
  {
    var k := IndexOf(containers, containers[a]);
    assert shares[k].container == shares[a].container;
  }

  lemma {:induction false} FlattenMember(refs: seq<seq<ClaimRef>>, x: ClaimRef) returns (a: nat)
    requires x in Flatten(refs)
    ensures a < |refs| && x in refs[a]
  {
    var n := |refs| - 1;
    if x in refs[n] {
      a := n;
    } else {
      a := FlattenMember(refs[..n], x);
    }
  }

  // ---- the patched pod ------------------------------------------------------

  // How the new claims are shared out: each container gets, for each requested
  // resource, as many as it asked for; each claim goes to a container, to no
  // other, and once.
  ghost predicate SharedOut(pod: Pod, reqs: seq<Intercepted>, batches: seq<Batch>) {
    && |batches| == |reqs|
    && (forall k, i: nat :: 0 <= k < |batches| && i < |pod.spec.containers| ==>
          |RefsOf(batches[k], i)| == Positive(pod.spec.containers[i], reqs[k].resource))
    && (forall n :: n in NewNames(batches) ==>
          exists i: nat :: i < |pod.spec.containers| && ClaimRef(n, "device") in AllRefs(batches, i))
    && (forall i, j, x :: x in AllRefs(batches, i) && x in AllRefs(batches, j) ==> i == j)
    && forall i :: NoRepeats(AllRefs(batches, i))
  }

  lemma BatchesShareOut(pod: Pod, reqs: seq<Intercepted>, batches: seq<Batch>)
    requires AreBatchesFor(pod, reqs, batches) && EscapesDiffer(reqs)
    ensures SharedOut(pod, reqs, batches)
  {
    forall k, i: nat | 0 <= k < |batches| && i < |pod.spec.containers|
      ensures |RefsOf(batches[k], i)| == Positive(pod.spec.containers[i], reqs[k].resource)
    {
      assert IsBatchFor(pod, reqs[k], batches[k]);
      RefsOfContainer(pod, reqs[k], batches[k], i);
    }
    forall n | n in NewNames(batches)
      ensures exists i: nat :: i < |pod.spec.containers| && ClaimRef(n, "device") in AllRefs(batches, i)
    {
      NewNamesMembers(batches, n);
      var k :| 0 <= k < |batches| && n in NamesOf(batches[k].claims);
      assert IsBatchFor(pod, reqs[k], batches[k]);
      var i := ClaimIsReferenced(pod, reqs[k], batches[k], n);
      AllRefsMembers(batches, i, ClaimRef(n, "device"));
    }
    forall i, j, x | x in AllRefs(batches, i) && x in AllRefs(batches, j)
      ensures i == j
    {
      OneContainer(pod, reqs, batches, i, j, x);
    }
    forall i
      ensures NoRepeats(AllRefs(batches, i))
    {
      RefsOnce(pod, reqs, batches, i);
    }
  }

  // References for different requests are to different claims.
  lemma OneBatch(pod: Pod, reqs: seq<Intercepted>, batches: seq<Batch>, k: nat, l: nat, i: nat, j: nat, x: ClaimRef)
    requires AreBatchesFor(pod, reqs, batches) && EscapesDiffer(reqs) && k < |reqs| && l < |reqs|
    requires x in RefsOf(batches[k], i) && x in RefsOf(batches[l], j)
    ensures k == l
  {
    assert IsBatchFor(pod, reqs[k], batches[k]) && IsBatchFor(pod, reqs[l], batches[l]);
    RefsAreNamed(pod, reqs[k], batches[k], i, x);
    RefsAreNamed(pod, reqs[l], batches[l], j, x);
    ApartExactly(pod, reqs, batches, k, l);
  }

  lemma OneContainer(pod: Pod, reqs: seq<Intercepted>, batches: seq<Batch>, i: nat, j: nat, x: ClaimRef)
    requires AreBatchesFor(pod, reqs, batches) && EscapesDiffer(reqs)
    requires x in AllRefs(batches, i) && x in AllRefs(batches, j)
    ensures i == j
  {
    AllRefsMembers(batches, i, x);
    AllRefsMembers(batches, j, x);
    var k: nat :| k < |batches| && x in RefsOf(batches[k], i);
    var l: nat :| l < |batches| && x in RefsOf(batches[l], j);
    OneBatch(pod, reqs, batches, k, l, i, j, x);
    assert IsBatchFor(pod, reqs[k], batches[k]);
    RefsNotShared(pod, reqs[k], batches[k], i, j, x);
  }

  lemma {:induction false} RefsOnce(pod: Pod, reqs: seq<Intercepted>, batches: seq<Batch>, i: nat)
    requires AreBatchesFor(pod, reqs, batches) && EscapesDiffer(reqs)
    ensures NoRepeats(AllRefs(batches, i))
  {
    if batches != [] {
      var m := |batches| - 1;
      RefsOnce(pod, reqs[..m], batches[..m], i);
      assert IsBatchFor(pod, reqs[m], batches[m]);
      RefsOnceInBatch(pod, reqs[m], batches[m], i);
      forall x | x in AllRefs(batches[..m], i)
        ensures x !in RefsOf(batches[m], i)
      {
        AllRefsMembers(batches[..m], i, x);
        var k: nat :| k < m && x in RefsOf(batches[..m][k], i);
        if x in RefsOf(batches[m], i) {
          OneBatch(pod, reqs, batches, k, m, i, i, x);
        }
      }
      RepeatsInConcat(AllRefs(batches[..m], i), RefsOf(batches[m], i));
    }
  }

  lemma RefsOnceInBatch(pod: Pod, req: Intercepted, b: Batch, i: nat)
    requires IsBatchFor(pod, req, b)
    ensures NoRepeats(RefsOf(b, i))
  {
    BatchNames(pod, req, b);
    if i in b.containers {
      var a := IndexOf(b.containers, i);
      forall p, q | 0 <= p < q < |b.refs[a]|
        ensures b.refs[a][p] != b.refs[a][q]
      {
        if b.refs[a][p] == b.refs[a][q] {
          NoSharedClaim(NamesOf(b.claims), req.shares, a, p, a, q);
        }
      }
    }
  }

  // The container gives up, in requests and limits, exactly the requested
  // resources that it asks a positive amount of.
  ghost predicate GivesUp(c: Container, d: Container, reqs: seq<Intercepted>) {
    && d.rest == c.rest
    && (c.resources.requests.Some? <==> d.resources.requests.Some?)
    && (c.resources.limits.Some? <==> d.resources.limits.Some?)
    && (c.resources.requests.Some? ==>
          d.resources.requests.value == c.resources.requests.value - PositiveOnes(c, reqs))
    && (c.resources.limits.Some? ==>
          d.resources.limits.value == c.resources.limits.value - PositiveOnes(c, reqs))
  }

  function PositiveOnes(c: Container, reqs: seq<Intercepted>): set<string> {
    set k | 0 <= k < |reqs| && Positive(c, reqs[k].resource) > 0 :: reqs[k].resource
  }

  lemma StrippedMeans(pod: Pod, reqs: seq<Intercepted>, batches: seq<Batch>, i: nat)
    requires AreBatchesFor(pod, reqs, batches) && i < |pod.spec.containers|
    requires forall k :: 0 <= k < |reqs| ==> batches[k].resource == reqs[k].resource
    ensures Stripped(batches, i) == PositiveOnes(pod.spec.containers[i], reqs)
  {
    forall k | 0 <= k < |reqs|
      ensures i in batches[k].containers <==> Positive(pod.spec.containers[i], reqs[k].resource) > 0
    {
      assert IsBatchFor(pod, reqs[k], batches[k]);
      RefsOfContainer(pod, reqs[k], batches[k], i);
    }
  }

  lemma EachGivesUp(pod: Pod, reqs: seq<Intercepted>, plan: Plan)
    requires AreBatchesFor(pod, reqs, plan.batches)
    requires forall k :: 0 <= k < |reqs| ==> plan.batches[k].resource == reqs[k].resource
    ensures |Target(pod, plan).spec.containers| == |pod.spec.containers|
    ensures forall i :: 0 <= i < |pod.spec.containers| ==>
      GivesUp(pod.spec.containers[i], Target(pod, plan).spec.containers[i], reqs)
  {
    BatchesEffect(pod, plan.batches);
    forall i | 0 <= i < |pod.spec.containers|
      ensures GivesUp(pod.spec.containers[i], Target(pod, plan).spec.containers[i], reqs)
    {
      StrippedMeans(pod, reqs, plan.batches, i);
      assert Effected(pod.spec.containers[i], Target(pod, plan).spec.containers[i], plan.batches, i);
    }
  }

  // Behind the claims for a request stand that many devices of its class, granted
  // on the node, and templates for one device of the class each.
  lemma InterceptedTemplates(pod: Pod, namespace: string, reqs: seq<Intercepted>, naming: Naming,
                             past: seq<Ledger.Event>, ttl: nat, world: nat -> Snapshot, before: Store,
                             after: Store, r: Outcome, plan: Plan, events: seq<Ledger.Event>, k: nat, i: nat)
    requires ResultFor(reqs, naming, past, ttl, pod, namespace, world, before, after, r, plan, events) && r.Patched?
    requires k < |reqs| && i < |plan.batches[k].claims|
    ensures var e := events[k];
      e.Extended? && e.cls == reqs[k].cls && e.node == plan.node && e.count == |plan.batches[k].claims|
    ensures var template := plan.batches[k].claims[i].template;
      && template == Some(naming.extended(i, reqs[k].cls)) && (namespace, template.value) in after
      && after[(namespace, template.value)] == ClaimSpec([DeviceRequest("device", reqs[k].cls, [])], false, None)
  {
    assert InterceptedBatch(pod, reqs[k], naming, plan.batches[k]);
    assert Grants(events[k], reqs[k], plan.node);
    WithHolds(before, namespace, WantedNames(naming, reqs, |reqs|), WantedSpecs(reqs, |reqs|));
    TemplateIsWanted(naming, reqs, |reqs|, k, i);
  }

  // The spec stands beside the name.
  ghost predicate Paired(names: seq<string>, specs: seq<ClaimSpec>, name: string, spec: ClaimSpec) {
    |names| == |specs| && exists m :: 0 <= m < |names| && names[m] == name && specs[m] == spec
  }

  lemma PairedInConcat(a: seq<string>, sa: seq<ClaimSpec>, b: seq<string>, sb: seq<ClaimSpec>, name: string,
                       spec: ClaimSpec)
    requires |a| == |sa| && |b| == |sb| && (Paired(a, sa, name, spec) || Paired(b, sb, name, spec))
    ensures Paired(a + b, sa + sb, name, spec)
  {
    if Paired(a, sa, name, spec) {
      var m :| 0 <= m < |a| && a[m] == name && sa[m] == spec;
      assert (a + b)[m] == name && (sa + sb)[m] == spec;
    } else {
      var m :| 0 <= m < |b| && b[m] == name && sb[m] == spec;
      assert (a + b)[|a| + m] == name && (sa + sb)[|a| + m] == spec;
    }
  }

  lemma {:induction false} TemplateIsWanted(naming: Naming, reqs: seq<Intercepted>, n: nat, k: nat, i: nat)
    requires k < n <= |reqs| && i < Total(reqs[k].shares)
    ensures Paired(WantedNames(naming, reqs, n), WantedSpecs(reqs, n), naming.extended(i, reqs[k].cls),
                   ExtendedSpec(reqs[k].cls))
  {
    var names, specs := NamesFor(naming, reqs[n - 1]), SpecsFor(reqs[n - 1]);
    if k == n - 1 {
      assert names[i] == naming.extended(i, reqs[k].cls) && specs[i] == ExtendedSpec(reqs[k].cls);
    } else {
      TemplateIsWanted(naming, reqs, n - 1, k, i);
    }
    PairedInConcat(WantedNames(naming, reqs, n - 1), WantedSpecs(reqs, n - 1), names, specs,
                   naming.extended(i, reqs[k].cls), ExtendedSpec(reqs[k].cls));
  }

  // The pod the patch yields: its claims are those it had and then new ones with
  // names of their own, distinct exactly when the resources stay apart once
  // escaped; its containers reference those they did and then the new ones, which
  // then are shared out as requested.
  lemma PatchedPodClaims(pod: Pod, namespace: string, intercepts: InterceptMap, reqs: seq<Intercepted>,
                         naming: Naming, cluster: Constraints.Cluster, plan: Plan, events: seq<Ledger.Event>)
    requires AreShares(pod.spec.containers, intercepts, reqs)
    requires InterceptedOutcome(pod, namespace, reqs, naming, cluster, plan, events)
    ensures var q := Target(pod, plan);
      && ListOf(q.spec.resourceClaims) == ListOf(pod.spec.resourceClaims) + AllClaims(plan.batches)
      && |q.spec.containers| == |pod.spec.containers|
      && forall i :: 0 <= i < |pod.spec.containers| ==>
           ListOf(q.spec.containers[i].resources.claims) ==
           ListOf(pod.spec.containers[i].resources.claims) + AllRefs(plan.batches, i)
    ensures forall i :: 0 <= i < |pod.spec.containers| ==>
      GivesUp(pod.spec.containers[i], Target(pod, plan).spec.containers[i], reqs)
    ensures forall n :: n in NewNames(plan.batches) ==> n !in ClaimNamesOf(pod)
    ensures NoRepeats(NewNames(plan.batches)) <==> EscapesDiffer(reqs)
    ensures EscapesDiffer(reqs) ==> SharedOut(pod, reqs, plan.batches)
  {
    BatchesEffect(pod, plan.batches);
    OutcomeGivesBatches(pod, namespace, intercepts, reqs, naming, cluster, plan, events);
    forall k | 0 <= k < |reqs|
      ensures plan.batches[k].resource == reqs[k].resource
    {
      assert InterceptedBatch(pod, reqs[k], naming, plan.batches[k]);
    }
    EachGivesUp(pod, reqs, plan);
    NewNamesDiffer(pod, reqs, plan.batches);
    if EscapesDiffer(reqs) {
      BatchesShareOut(pod, reqs, plan.batches);
    }
  }
}
