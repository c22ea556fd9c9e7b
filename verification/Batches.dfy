// One resource taken out of a pod at a
// time: what the pod is afterwards, and
// the operations that make it so, after
// the operations for the resources before
// it.
module Batches {
  import opened Basics
  import opened Sorting
  import opened Json
  import opened Pods
  import opened PodJson
  import opened Builders

  // A resource to strip from the listed containers, the pod-level claims that
  // replace it, and for each listed container the claims it is given.
  datatype Batch = Batch(resource: string, containers: seq<nat>, claims: seq<PodClaim>, refs: seq<seq<ClaimRef>>)

  function IndexOf(xs: seq<nat>, x: nat): (k: nat)
    requires x in xs
    ensures k < |xs| && xs[k] == x
  {
    if xs[0] == x then 0 else 1 + IndexOf(xs[1..], x)
  }

  predicate WellFormed(b: Batch, containers: nat) {
    && |b.refs| == |b.containers|
    && (forall k :: 0 <= k < |b.containers| ==> b.containers[k] < containers)
    && (forall k, l :: 0 <= k < l < |b.containers| ==> b.containers[k] != b.containers[l])
  }

  // What the batch gives a container
  function RefsOf(b: Batch, i: nat): seq<ClaimRef> {
    if i in b.containers && IndexOf(b.containers, i) < |b.refs| then b.refs[IndexOf(b.containers, i)] else []
  }

  // A listed container loses the resource and gains its claims, after those it
  // had; any other container is unchanged.
  function AfterContainer(c: Container, i: nat, b: Batch): Container {
    if i in b.containers then c.(resources := MoreRefs(Strip(c.resources, b.resource), RefsOf(b, i))) else c
  }

  function AfterBatch(p: Pod, b: Batch): Pod {
    var cs := p.spec.containers;
    AddClaims(p, b.claims).(spec := AddClaims(p, b.claims).spec.(containers :=
      seq(|cs|, i requires 0 <= i < |cs| => AfterContainer(cs[i], i, b))))
  }

  function AfterBatches(p: Pod, batches: seq<Batch>): Pod {
    if batches == [] then p
    else AfterBatch(AfterBatches(p, batches[..|batches| - 1]), batches[|batches| - 1])
  }

  // ---- what a run of batches leaves -----------------------------------------

  function AllClaims(batches: seq<Batch>): seq<PodClaim> {
    if batches == [] then [] else AllClaims(batches[..|batches| - 1]) + batches[|batches| - 1].claims
  }

  function AllRefs(batches: seq<Batch>, i: nat): seq<ClaimRef> {
    if batches == [] then []
    else AllRefs(batches[..|batches| - 1], i) + RefsOf(batches[|batches| - 1], i)
  }

  function Stripped(batches: seq<Batch>, i: nat): set<string> {
    set k | 0 <= k < |batches| && i in batches[k].containers :: batches[k].resource
  }

  function Without(m: Option<map<string, int>>, names: set<string>): Option<map<string, int>> {
    if m.None? then None else Some(m.value - names)
  }

  // The container loses exactly the resources it is listed for, keeps its claim
  // references and gets its new ones behind them.
  predicate Effected(c: Container, d: Container, batches: seq<Batch>, i: nat) {
    && d.rest == c.rest
    && d.resources.requests == Without(c.resources.requests, Stripped(batches, i))
    && d.resources.limits == Without(c.resources.limits, Stripped(batches, i))
    && ListOf(d.resources.claims) == ListOf(c.resources.claims) + AllRefs(batches, i)
  }

  // Over all batches: the pod keeps its claims and gets the new ones behind
  // them, each container is changed as above, and nothing else moves.
  lemma {:induction false} BatchesEffect(p: Pod, batches: seq<Batch>)
    ensures var q := AfterBatches(p, batches);
      && q == p.(spec := p.spec.(resourceClaims := q.spec.resourceClaims, containers := q.spec.containers))
      && ListOf(q.spec.resourceClaims) == ListOf(p.spec.resourceClaims) + AllClaims(batches)
      && |q.spec.containers| == |p.spec.containers|
      && forall i :: 0 <= i < |p.spec.containers| ==> Effected(p.spec.containers[i], q.spec.containers[i], batches, i)
  {
    if batches == [] {
      forall i | 0 <= i < |p.spec.containers|
        ensures Effected(p.spec.containers[i], p.spec.containers[i], batches, i)
      {
        NoEffect(p.spec.containers[i], i);
      }
    } else {
      var n := |batches| - 1;
      var before, b := batches[..n], batches[n];
      assert before + [b] == batches;
      BatchesEffect(p, before);
      var q := AfterBatches(p, before);
      assert ListOf(p.spec.resourceClaims) + AllClaims(before) + b.claims ==
        ListOf(p.spec.resourceClaims) + (AllClaims(before) + b.claims);
      forall i | 0 <= i < |p.spec.containers|
        ensures Effected(p.spec.containers[i], AfterBatches(p, batches).spec.containers[i], batches, i)
      {
        ContainerEffect(p.spec.containers[i], q.spec.containers[i], i, before, b);
      }
    }
  }

  lemma NoEffect(c: Container, i: nat)
    ensures Effected(c, c, [], i)
  {
    WithoutNone(c.resources.requests);
    WithoutNone(c.resources.limits);
    assert Stripped([], i) == {};
  }

  lemma WithoutNone(m: Option<map<string, int>>)
    ensures Without(m, {}) == m
  {
    if m.Some? {
      assert m.value - {} == m.value;
    }
  }

  lemma LessIsWithout(m: Option<map<string, int>>, names: set<string>, name: string)
    ensures Less(Without(m, names), name) == Without(m, names + {name})
  {
    if m.Some? {
      assert m.value - names - {name} == m.value - (names + {name});
    }
  }

  lemma StrippedOneMore(before: seq<Batch>, b: Batch, i: nat)
    ensures Stripped(before + [b], i) == Stripped(before, i) + if i in b.containers then {b.resource} else {}
  {
    var all := before + [b];
    forall s | s in Stripped(before, i)
      ensures s in Stripped(all, i)
    {
      var k :| 0 <= k < |before| && i in before[k].containers && before[k].resource == s;
      assert all[k] == before[k];
    }
    if i in b.containers {
      assert all[|before|] == b;
    }
  }

  lemma ContainerEffect(c: Container, mid: Container, i: nat, before: seq<Batch>, b: Batch)
    requires Effected(c, mid, before, i)
    ensures Effected(c, AfterContainer(mid, i, b), before + [b], i)
  {
    var all := before + [b];
    StrippedOneMore(before, b, i);
    LessIsWithout(c.resources.requests, Stripped(before, i), b.resource);
    LessIsWithout(c.resources.limits, Stripped(before, i), b.resource);
    assert all[..|all| - 1] == before && all[|all| - 1] == b;
    var own, more := ListOf(c.resources.claims), AllRefs(before, i);
    if i in b.containers {
      assert own + more + RefsOf(b, i) == own + (more + RefsOf(b, i));
    } else {
      assert more + [] == more;
      assert Stripped(before, i) + {} == Stripped(before, i);
    }
  }

  // ---- emitting a batch -----------------------------------------------------

  function AddRefsAll(p: Pod, containers: seq<nat>, refs: seq<seq<ClaimRef>>): (q: Pod)
    requires |refs| == |containers|
    requires forall k :: 0 <= k < |containers| ==> containers[k] < |p.spec.containers|
    ensures |q.spec.containers| == |p.spec.containers|
  {
    if containers == [] then p
    else
      var n := |containers| - 1;
      AddRefs(AddRefsAll(p, containers[..n], refs[..n]), containers[n], refs[n])
  }

  lemma {:induction false} StripAllAt(p: Pod, containers: seq<nat>, name: string, i: nat)
    requires forall k :: 0 <= k < |containers| ==> containers[k] < |p.spec.containers|
    requires NoRepeats(containers) && i < |p.spec.containers|
    ensures var q := StripAll(p, containers, name);
      && q == p.(spec := p.spec.(containers := q.spec.containers))
      && q.spec.containers[i] == if i in containers
           then p.spec.containers[i].(resources := Strip(p.spec.containers[i].resources, name))
           else p.spec.containers[i]
  {
    if containers != [] {
      var n := |containers| - 1;
      assert containers == containers[..n] + [containers[n]];
      StripAllAt(p, containers[..n], name, i);
      StripAllAt(p, containers[..n], name, containers[n]);
    }
  }

  lemma {:induction false} AddRefsAllAt(p: Pod, containers: seq<nat>, refs: seq<seq<ClaimRef>>, i: nat)
    requires |refs| == |containers|
    requires forall k :: 0 <= k < |containers| ==> containers[k] < |p.spec.containers|
    requires NoRepeats(containers) && i < |p.spec.containers|
    ensures var q := AddRefsAll(p, containers, refs);
      && q == p.(spec := p.spec.(containers := q.spec.containers))
      && (i !in containers ==> q.spec.containers[i] == p.spec.containers[i])
      && forall k :: 0 <= k < |containers| && containers[k] == i ==>
           q.spec.containers[i] == p.spec.containers[i].(resources := MoreRefs(p.spec.containers[i].resources, refs[k]))
  {
    if containers != [] {
      var n := |containers| - 1;
      assert containers == containers[..n] + [containers[n]];
      AddRefsAllAt(p, containers[..n], refs[..n], i);
      AddRefsAllAt(p, containers[..n], refs[..n], containers[n]);
      forall k | 0 <= k < n && containers[k] == i
        ensures containers[..n][k] == i && refs[..n][k] == refs[k]
      {
      }
    }
  }

  function InTurn(p: Pod, b: Batch): (q: Pod)
    requires WellFormed(b, |p.spec.containers|)
    ensures |q.spec.containers| == |p.spec.containers|
  {
    AddRefsAll(AddClaims(StripAll(p, b.containers, b.resource), b.claims), b.containers, b.refs)
  }

  lemma InTurnAt(p: Pod, b: Batch, i: nat)
    requires WellFormed(b, |p.spec.containers|) && i < |p.spec.containers|
    ensures InTurn(p, b).spec.containers[i] == AfterContainer(p.spec.containers[i], i, b)
    ensures InTurn(p, b) == AddClaims(p, b.claims).(spec := AddClaims(p, b.claims).spec.(containers :=
      InTurn(p, b).spec.containers))
  {
    var p1 := StripAll(p, b.containers, b.resource);
    var p2 := AddClaims(p1, b.claims);
    StripAllAt(p, b.containers, b.resource, i);
    AddRefsAllAt(p2, b.containers, b.refs, i);
    if i in b.containers {
      var k := IndexOf(b.containers, i);
      assert b.containers[k] == i;
    }
  }

  // Strip, add claims, add references in turn: the batch as a whole
  lemma InTurnIsBatch(p: Pod, b: Batch)
    requires WellFormed(b, |p.spec.containers|)
    ensures InTurn(p, b) == AfterBatch(p, b)
  {
    forall i | 0 <= i < |p.spec.containers|
      ensures InTurn(p, b).spec.containers[i] == AfterBatch(p, b).spec.containers[i]
    {
      InTurnAt(p, b, i);
    }
    assert InTurn(p, b).spec.containers == AfterBatch(p, b).spec.containers;
    if p.spec.containers == [] {
      assert b.containers == [];
    } else {
      InTurnAt(p, b, 0);
    }
  }

  // The pod as patched so far, cur, seen against the pod the mutator looks at:
  // claims has been created unless first, references on the containers in
  // added, and quantities differ only in the resources already done.
  ghost predicate Tracks(pod: Pod, cur: Pod, first: bool, added: set<nat>, done: set<string>) {
    && cur.meta == pod.meta && cur.spec.affinity == pod.spec.affinity
    && (cur.spec.resourceClaims.None? <==> pod.spec.resourceClaims.None? && first)
    && |cur.spec.containers| == |pod.spec.containers|
    && forall i: nat {:trigger TrackedAt(pod, cur, i, added, done)} :: i < |pod.spec.containers| ==>
         TrackedAt(pod, cur, i, added, done)
  }

  ghost predicate TrackedAt(pod: Pod, cur: Pod, i: nat, added: set<nat>, done: set<string>)
    requires i < |pod.spec.containers| == |cur.spec.containers|
  {
    TracksContainer(pod.spec.containers[i].resources, cur.spec.containers[i].resources, i in added, done)
  }

  ghost predicate TracksContainer(r: Resources, s: Resources, added: bool, done: set<string>) {
    && (s.claims.None? <==> r.claims.None? && !added)
    && (s.requests.Some? <==> r.requests.Some?) && (s.limits.Some? <==> r.limits.Some?)
    && (forall name :: name !in done && r.requests.Some? ==> (name in s.requests.value <==> name in r.requests.value))
    && (forall name :: name !in done && r.limits.Some? ==> (name in s.limits.value <==> name in r.limits.value))
  }

  ghost predicate Requests(pod: Pod, b: Batch) {
    && WellFormed(b, |pod.spec.containers|)
    && forall k :: 0 <= k < |b.containers| ==>
         var r := pod.spec.containers[b.containers[k]].resources;
         r.requests.Some? && b.resource in r.requests.value
  }

  lemma TracksBatch(pod: Pod, cur: Pod, first: bool, added: set<nat>, done: set<string>, b: Batch)
    requires Tracks(pod, cur, first, added, done) && Requests(pod, b)
    ensures Tracks(pod, AfterBatch(cur, b), false, added + (set i | i in b.containers), done + {b.resource})
  {
    var now, more, all := AfterBatch(cur, b), added + (set i | i in b.containers), done + {b.resource};
    forall i: nat | i < |pod.spec.containers|
      ensures TrackedAt(pod, now, i, more, all)
    {
      assert TrackedAt(pod, cur, i, added, done);
    }
  }

  // The operations for one batch: resource removal, pod claims, container
  // references, as both phases of Mutate emit them
  method EmitBatch(pod: Pod, b: Batch, firstPodClaim: bool, added: set<nat>, ghost cur: Pod, ghost done: set<string>)
    returns (patches: seq<Op>)
    requires Tracks(pod, cur, firstPodClaim, added, done) && Requests(pod, b) && b.resource !in done
    ensures ApplyAll(Document(cur), patches) == Some(Document(AfterBatch(cur, b)))
  {
    StripTracked(pod, cur, firstPodClaim, added, done, b);
    patches := BuildResourceRemovalPatches(pod, b.containers, b.resource, cur);
    ghost var p1 := StripAll(cur, b.containers, b.resource);
    var more := BuildPodClaimPatches(pod, b.claims, firstPodClaim, p1);
    ApplyAllConcat(Document(cur), patches, more);
    patches := patches + more;
    more := EmitRefs(pod, b, added, AddClaims(p1, b.claims));
    ApplyAllConcat(Document(cur), patches, more);
    patches := patches + more;
    InTurnIsBatch(cur, b);
  }

  method EmitRefs(pod: Pod, b: Batch, added: set<nat>, ghost cur: Pod) returns (patches: seq<Op>)
    requires WellFormed(b, |cur.spec.containers|) && |cur.spec.containers| == |pod.spec.containers|
    requires forall i :: 0 <= i < |pod.spec.containers| ==>
      (cur.spec.containers[i].resources.claims.None? <==>
         pod.spec.containers[i].resources.claims.None? && i !in added)
    ensures ApplyAll(Document(cur), patches) == Some(Document(AddRefsAll(cur, b.containers, b.refs)))
  {
    patches := [];
    for k := 0 to |b.containers|
      invariant ApplyAll(Document(cur), patches) ==
        Some(Document(AddRefsAll(cur, b.containers[..k], b.refs[..k])))
    {
      var i := b.containers[k];
      ghost var now := AddRefsAll(cur, b.containers[..k], b.refs[..k]);
      AddRefsAllAt(cur, b.containers[..k], b.refs[..k], i);
      var more := BuildContainerClaimRefPatches(pod, i, b.refs[k], i !in added, now);
      ApplyAllConcat(Document(cur), patches, more);
      assert b.containers[..k + 1][..k] == b.containers[..k] && b.refs[..k + 1][..k] == b.refs[..k];
      patches := patches + more;
    }
    assert b.containers[..|b.containers|] == b.containers && b.refs[..|b.refs|] == b.refs;
  }

  lemma StripTracked(pod: Pod, cur: Pod, first: bool, added: set<nat>, done: set<string>, b: Batch)
    requires Tracks(pod, cur, first, added, done) && Requests(pod, b) && b.resource !in done
    ensures forall k :: 0 <= k < |b.containers| ==> SameQuantities(pod, cur, b.containers[k], b.resource)
    ensures var p1 := StripAll(cur, b.containers, b.resource);
      && (p1.spec.resourceClaims.None? <==> pod.spec.resourceClaims.None? && first)
      && forall i :: 0 <= i < |pod.spec.containers| ==>
           (p1.spec.containers[i].resources.claims.None? <==>
              pod.spec.containers[i].resources.claims.None? && i !in added)
  {
    var p1 := StripAll(cur, b.containers, b.resource);
    forall k | 0 <= k < |b.containers|
      ensures SameQuantities(pod, cur, b.containers[k], b.resource)
    {
      assert TrackedAt(pod, cur, b.containers[k], added, done);
    }
    forall i | 0 <= i < |pod.spec.containers|
      ensures p1.spec.resourceClaims == cur.spec.resourceClaims
      ensures p1.spec.containers[i].resources.claims.None? <==>
        pod.spec.containers[i].resources.claims.None? && i !in added
    {
      StripAllAt(cur, b.containers, b.resource, i);
      assert TrackedAt(pod, cur, i, added, done);
    }
    if pod.spec.containers == [] {
      assert b.containers == [];
    }
  }
}
