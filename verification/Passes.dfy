// Reconciliation passes: what one pass concludes, and what follows over many.
module Passes {
  import opened Basics
  import opened Orphans
  import opened Pods

  datatype Template = Template(namespace: string, name: string)

  datatype OwnerRef = OwnerRef(kind: string, apiVersion: string, name: string)

  datatype Claim = Claim(namespace: string, name: string, annotations: map<string, string>, owners: seq<OwnerRef>)

  datatype Answer = Found | NotFound | Failed

  // What the API server answers during a pass: lists that may fail, the result
  // of getting a pod, and whether deleting an object succeeds or finds nothing.
  datatype Cluster = Cluster(
    templates: Option<seq<Template>>,
    podsIn: string -> Option<seq<Pod>>,
    claims: Option<seq<Claim>>,
    getPod: (string, string) -> Answer,
    deletable: Id -> bool)

  const TEMPLATE_KIND := "ResourceClaimTemplate"
  const CLAIM_KIND := "ResourceClaim"
  const CLAIM_NAME_ANNOTATION := "resource.kubernetes.io/pod-claim-name"
  const UNREFERENCED := "not referenced by any pod"

  function TemplateId(t: Template): Id {
    Id(TEMPLATE_KIND, t.namespace, t.name)
  }

  function ClaimId(c: Claim): Id {
    Id(CLAIM_KIND, c.namespace, c.name)
  }

  predicate Mentions(pod: Pod, name: string) {
    pod.spec.resourceClaims.Some? &&
    exists i :: 0 <= i < |pod.spec.resourceClaims.value| && pod.spec.resourceClaims.value[i].template == Some(name)
  }

  // Some pod the pass could list refers to the template.
  predicate Referenced(c: Cluster, t: Template) {
    c.podsIn(t.namespace).Some? &&
    exists i :: 0 <= i < |c.podsIn(t.namespace).value| && Mentions(c.podsIn(t.namespace).value[i], t.name)
  }

  function OwnerPod(owners: seq<OwnerRef>): string {
    if owners == [] then ""
    else if owners[0].kind == "Pod" && owners[0].apiVersion == "v1" then owners[0].name
    else OwnerPod(owners[1..])
  }

  // What a pass concludes about one object
  datatype Verdict = Used(id: Id) | Orphan(id: Id, reason: string) | Ignored

  function TemplateVerdict(c: Cluster, t: Template): Verdict {
    if Referenced(c, t) then Used(TemplateId(t)) else Orphan(TemplateId(t), UNREFERENCED)
  }

  function ClaimVerdict(c: Cluster, claim: Claim): Verdict {
    if CLAIM_NAME_ANNOTATION !in claim.annotations then Ignored
    else
      var owner := OwnerPod(claim.owners);
      if owner == "" then Orphan(ClaimId(claim), "no pod owner reference")
      else
        match c.getPod(claim.namespace, owner)
        case Found => Used(ClaimId(claim))
        case NotFound => Orphan(ClaimId(claim), "owner pod \"" + owner + "\" not found")
        case Failed => Ignored
  }

  function TemplateVerdicts(c: Cluster): seq<Verdict> {
    if c.templates.None? then []
    else seq(|c.templates.value|, i requires 0 <= i < |c.templates.value| => TemplateVerdict(c, c.templates.value[i]))
  }

  function ClaimVerdicts(c: Cluster): seq<Verdict> {
    if c.claims.None? then []
    else seq(|c.claims.value|, i requires 0 <= i < |c.claims.value| => ClaimVerdict(c, c.claims.value[i]))
  }

  function Verdicts(c: Cluster): seq<Verdict> {
    TemplateVerdicts(c) + ClaimVerdicts(c)
  }

  // A step carries out a verdict between two readings of the clock.
  ghost predicate Carries(step: Step, v: Verdict, c: Cluster, start: int, end: int) {
    match v
    case Used(id) => step == InUse(id)
    case Orphan(id, reason) =>
      && step.Orphaned? && step.id == id && step.reason == reason && step.gone == c.deletable(id)
      && start <= step.recordedAt <= step.checkedAt <= step.markedAt <= end
    case Ignored => false
  }

  // The steps that carry out a list of verdicts: one for each that is not ignored
  ghost predicate CarryOut(steps: seq<Step>, vs: seq<Verdict>, c: Cluster, start: int, end: int)
    decreases |vs|
  {
    if vs == [] then steps == []
    else
      var n := |vs| - 1;
      if vs[n] == Ignored then CarryOut(steps, vs[..n], c, start, end)
      else
        && steps != []
        && Carries(steps[|steps| - 1], vs[n], c, start, end)
        && CarryOut(steps[..|steps| - 1], vs[..n], c, start, end)
  }

  datatype Pass = Pass(seen: Cluster, steps: seq<Step>, start: int, end: int)

  // What reconcileOnce does: the verdicts in order, then pruning
  ghost predicate IsPass(p: Pass) {
    && p.steps != []
    && var n := |p.steps| - 1;
    && CarryOut(p.steps[..n], Verdicts(p.seen), p.seen, p.start, p.end)
    && p.steps[n].Prune? && p.start <= p.steps[n].at <= p.end
  }

  // Namespaces hold no slash.
  ghost predicate PlainNames(c: Cluster) {
    forall i :: 0 <= i < |Verdicts(c)| && Verdicts(c)[i] != Ignored ==> Plain(Verdicts(c)[i].id)
  }

  // Names are unique in a namespace, so an object is listed once.
  ghost predicate UniqueNames(c: Cluster) {
    forall i, j :: 0 <= i < j < |Verdicts(c)| && Verdicts(c)[i] != Ignored && Verdicts(c)[j] != Ignored ==>
      Verdicts(c)[i].id != Verdicts(c)[j].id
  }

  // Every step of a pass but the last comes from a verdict, and the other way round.
  lemma {:induction false} StepsAreVerdicts(steps: seq<Step>, vs: seq<Verdict>, c: Cluster, start: int, end: int,
                                            i: nat)
    requires CarryOut(steps, vs, c, start, end) && i < |steps|
    ensures exists k :: 0 <= k < |vs| && vs[k] != Ignored && Carries(steps[i], vs[k], c, start, end)
    decreases |vs|
  {
    var n := |vs| - 1;
    if vs[n] == Ignored {
      StepsAreVerdicts(steps, vs[..n], c, start, end, i);
      var k :| 0 <= k < n && vs[..n][k] != Ignored && Carries(steps[i], vs[..n][k], c, start, end);
      assert Carries(steps[i], vs[k], c, start, end);
    } else if i == |steps| - 1 {
      assert Carries(steps[i], vs[n], c, start, end);
    } else {
      var shorter := steps[..|steps| - 1];
      StepsAreVerdicts(shorter, vs[..n], c, start, end, i);
      var k :| 0 <= k < n && vs[..n][k] != Ignored && Carries(shorter[i], vs[..n][k], c, start, end);
      assert Carries(steps[i], vs[k], c, start, end);
    }
  }

  // A verdict other than the k-th accounts for the step.
  ghost predicate HasOther(step: Step, vs: seq<Verdict>, k: nat, c: Cluster, start: int, end: int) {
    exists m :: 0 <= m < |vs| && m != k && vs[m] != Ignored && Carries(step, vs[m], c, start, end)
  }

  lemma {:induction false} VerdictIsCarried(steps: seq<Step>, vs: seq<Verdict>, c: Cluster, start: int, end: int,
                                            k: nat)
    returns (i: nat)
    requires CarryOut(steps, vs, c, start, end) && k < |vs| && vs[k] != Ignored
    ensures i < |steps| && Carries(steps[i], vs[k], c, start, end)
    ensures forall j :: 0 <= j < |steps| && j != i ==> HasOther(steps[j], vs, k, c, start, end)
    decreases |vs|
  {
    var n := |vs| - 1;
    var front := if vs[n] == Ignored then steps else steps[..|steps| - 1];
    if k == n {
      i := |steps| - 1;
      forall j | 0 <= j < i
        ensures HasOther(steps[j], vs, k, c, start, end)
      {
        StepsAreVerdicts(front, vs[..n], c, start, end, j);
        assert front[j] == steps[j];
        assert HasOther(steps[j], vs[..n], k, c, start, end);
      }
    } else {
      i := VerdictIsCarried(front, vs[..n], c, start, end, k);
      assert front[i] == steps[i] && vs[..n][k] == vs[k];
      forall j | 0 <= j < |steps| && j != i
        ensures HasOther(steps[j], vs, k, c, start, end)
      {
        if j < |front| {
          assert front[j] == steps[j];
        } else {
          assert Carries(steps[j], vs[n], c, start, end);
        }
      }
    }
  }

  // ---- runs of passes -------------------------------------------------------

  // The state before pass p
  ghost function StateAt(s0: State, passes: seq<Pass>, p: nat, cfg: Config): State
    requires p <= |passes|
  {
    if p == 0 then s0 else RunFrom(StateAt(s0, passes, p - 1, cfg), passes[p - 1].steps, cfg)
  }

  // The i-th step of pass p asks for a deletion.
  ghost predicate DeletesAt(s0: State, passes: seq<Pass>, p: nat, i: nat, cfg: Config)
    requires p < |passes| && i < |passes[p].steps|
  {
    Deletes(RunFrom(StateAt(s0, passes, p, cfg), passes[p].steps[..i], cfg), passes[p].steps[i], cfg)
  }

  ghost predicate Proper(passes: seq<Pass>) {
    forall p :: 0 <= p < |passes| ==> IsPass(passes[p]) && PlainNames(passes[p].seen)
  }

  ghost function AllSteps(passes: seq<Pass>, p: nat): seq<Step>
    requires p <= |passes|
  {
    if p == 0 then [] else AllSteps(passes, p - 1) + passes[p - 1].steps
  }

  lemma {:induction false} StateAtIsRun(s0: State, passes: seq<Pass>, p: nat, cfg: Config)
    requires p <= |passes|
    ensures StateAt(s0, passes, p, cfg) == RunFrom(s0, AllSteps(passes, p), cfg)
  {
    if p > 0 {
      StateAtIsRun(s0, passes, p - 1, cfg);
      RunConcat(s0, AllSteps(passes, p - 1), passes[p - 1].steps, cfg);
    }
  }

  // Which pass a step belongs to
  lemma {:induction false} Locate(passes: seq<Pass>, p: nat, m: nat) returns (q: nat, j: nat)
    requires p <= |passes| && m < |AllSteps(passes, p)|
    ensures q < p && j < |passes[q].steps|
    ensures m == |AllSteps(passes, q)| + j
    ensures passes[q].steps[j] == AllSteps(passes, p)[m]
  {
    if m < |AllSteps(passes, p - 1)| {
      q, j := Locate(passes, p - 1, m);
    } else {
      q, j := p - 1, m - |AllSteps(passes, p - 1)|;
    }
  }

  lemma {:induction false} StepOf(passes: seq<Pass>, p: nat, q: nat, j: nat)
    requires q < p <= |passes| && j < |passes[q].steps|
    ensures |AllSteps(passes, q)| + |passes[q].steps| <= |AllSteps(passes, p)|
    ensures AllSteps(passes, p)[|AllSteps(passes, q)| + j] == passes[q].steps[j]
  {
    if q < p - 1 {
      StepOf(passes, p - 1, q, j);
    }
  }

  lemma {:induction false} AllStepsPlain(passes: seq<Pass>, p: nat)
    requires p <= |passes| && forall q :: 0 <= q < p ==> AllPlain(passes[q].steps)
    ensures AllPlain(AllSteps(passes, p))
  {
    if p > 0 {
      AllStepsPlain(passes, p - 1);
    }
  }

  lemma PassPlain(p: Pass)
    requires IsPass(p) && PlainNames(p.seen)
    ensures AllPlain(p.steps)
  {
    var n := |p.steps| - 1;
    forall i | 0 <= i < |p.steps| && !p.steps[i].Prune?
      ensures Plain(p.steps[i].id)
    {
      StepsAreVerdicts(p.steps[..n], Verdicts(p.seen), p.seen, p.start, p.end, i);
      assert p.steps[..n][i] == p.steps[i];
    }
  }

  // A pass that finds an object in use takes note of it.
  ghost predicate SeesUse(p: Pass, id: Id) {
    exists k :: 0 <= k < |Verdicts(p.seen)| && Verdicts(p.seen)[k] == Used(id)
  }

  ghost predicate NotesUse(p: Pass) {
    forall id :: SeesUse(p, id) ==> InUse(id) in p.steps
  }

  lemma PassNotesUse(p: Pass)
    requires IsPass(p)
    ensures NotesUse(p)
  {
    var n := |p.steps| - 1;
    forall id | SeesUse(p, id)
      ensures InUse(id) in p.steps
    {
      var k :| 0 <= k < |Verdicts(p.seen)| && Verdicts(p.seen)[k] == Used(id);
      var i := VerdictIsCarried(p.steps[..n], Verdicts(p.seen), p.seen, p.start, p.end, k);
      assert p.steps[..n][i] == p.steps[i];
    }
  }

  // The j-th step of pass q detected the object, at least a grace period before
  // t, and no pass between q and p found it in use.
  ghost predicate DetectedEarlier(passes: seq<Pass>, q: nat, j: nat, p: nat, id: Id, t: int, cfg: Config) {
    && q <= p < |passes| && j < |passes[q].steps|
    && passes[q].steps[j].Orphaned? && passes[q].steps[j].id == id
    && t - passes[q].steps[j].recordedAt >= cfg.gracePeriod
    && NotUsedBetween(passes, q, p, id)
  }

  // Nothing is deleted that was not detected a grace period before, or that a
  // pass since then has seen in use.
  lemma {:induction false} ReapIsSafe(passes: seq<Pass>, p: nat, i: nat, cfg: Config) returns (q: nat, j: nat)
    requires Proper(passes) && p < |passes| && i < |passes[p].steps|
    requires DeletesAt(FRESH, passes, p, i, cfg)
    ensures cfg.autoReap
    ensures DetectedEarlier(passes, q, j, p, passes[p].steps[i].id, passes[p].steps[i].checkedAt, cfg)
  {
    var before, step := AllSteps(passes, p) + passes[p].steps[..i], passes[p].steps[i];
    StateAtIsRun(FRESH, passes, p, cfg);
    RunConcat(FRESH, AllSteps(passes, p), passes[p].steps[..i], cfg);
    BeforePlain(passes, p, i);
    DeletionsWait(before, step, cfg);
    var m: nat, d :| DetectedBy(before + [step], m, step.id, d) && step.checkedAt - d >= cfg.gracePeriod;
    forall r | 0 <= r < p
      ensures NotesUse(passes[r])
    {
      PassNotesUse(passes[r]);
    }
    q, j := DetectingPass(passes, p, i, m, d);
  }

  lemma DetectingPass(passes: seq<Pass>, p: nat, i: nat, m: nat, d: int) returns (q: nat, j: nat)
    requires p < |passes| && i < |passes[p].steps| && passes[p].steps[i].Orphaned?
    requires forall r :: 0 <= r < p ==> NotesUse(passes[r])
    requires DetectedBy(AllSteps(passes, p) + passes[p].steps[..i] + [passes[p].steps[i]], m, passes[p].steps[i].id, d)
    ensures q <= p && j < |passes[q].steps|
    ensures passes[q].steps[j].Orphaned? && passes[q].steps[j].id == passes[p].steps[i].id
    ensures passes[q].steps[j].recordedAt == d
    ensures NotUsedBetween(passes, q, p, passes[p].steps[i].id)
  {
    var id, all := passes[p].steps[i].id, AllSteps(passes, p);
    var flat := all + passes[p].steps[..i] + [passes[p].steps[i]];
    if m < |all| {
      q, j := Locate(passes, p, m);
      assert forall n :: 0 <= n < |all| ==> flat[n] == all[n];
      forall r | q < r < p
        ensures !SeesUse(passes[r], id)
      {
        if SeesUse(passes[r], id) {
          var k: nat :| k < |passes[r].steps| && passes[r].steps[k] == InUse(id);
          StepsInOrder(passes, p, q, j, r, k);
        }
      }
    } else {
      q, j := p, m - |all|;
      assert flat[m] == passes[p].steps[j];
    }
  }

  ghost predicate NotUsedBetween(passes: seq<Pass>, q: nat, p: nat, id: Id)
    requires p <= |passes|
  {
    forall r :: q < r < p ==> !SeesUse(passes[r], id)
  }

  lemma StepsInOrder(passes: seq<Pass>, p: nat, q: nat, j: nat, r: nat, k: nat)
    requires q < r < p <= |passes| && j < |passes[q].steps| && k < |passes[r].steps|
    ensures |AllSteps(passes, q)| + j < |AllSteps(passes, r)| + k < |AllSteps(passes, p)|
    ensures AllSteps(passes, p)[|AllSteps(passes, r)| + k] == passes[r].steps[k]
  {
    StepOf(passes, p, r, k);
    StepOf(passes, r, q, j);
  }

  lemma BeforePlain(passes: seq<Pass>, p: nat, i: nat)
    requires Proper(passes) && p < |passes| && i < |passes[p].steps|
    ensures AllPlain(AllSteps(passes, p) + passes[p].steps[..i] + [passes[p].steps[i]])
  {
    forall q | 0 <= q <= p
      ensures AllPlain(passes[q].steps)
    {
      PassPlain(passes[q]);
    }
    AllStepsPlain(passes, p);
  }

  // For templates: no pass after the detection, up to the one that deletes,
  // lists a pod that refers to the template.
  lemma {:induction false} TemplatesReapedSafely(passes: seq<Pass>, p: nat, i: nat, t: Template, cfg: Config)
    returns (q: nat, j: nat)
    requires Proper(passes) && p < |passes| && i < |passes[p].steps|
    requires DeletesAt(FRESH, passes, p, i, cfg) && passes[p].steps[i].id == TemplateId(t)
    ensures DetectedEarlier(passes, q, j, p, TemplateId(t), passes[p].steps[i].checkedAt, cfg)
    ensures UnreferencedSince(passes, q, p, t)
  {
    q, j := ReapIsSafe(passes, p, i, cfg);
    OrphanIsUnreferenced(passes[p], i, t);
    NotUsedIsUnreferenced(passes, q, p, t);
  }

  ghost predicate UnreferencedSince(passes: seq<Pass>, q: nat, p: nat, t: Template)
    requires p < |passes|
  {
    forall r :: q < r <= p && Lists(passes[r].seen, t) && passes[r].seen.podsIn(t.namespace).Some? ==>
      NoneRefers(passes[r].seen.podsIn(t.namespace).value, t.name)
  }

  // No claim of any of the pods is made from the template.
  ghost predicate NoneRefers(pods: seq<Pod>, name: string) {
    forall pod, claim :: pod in pods && pod.spec.resourceClaims.Some? && claim in pod.spec.resourceClaims.value ==>
      claim.template != Some(name)
  }

  lemma ReferencedMeans(c: Cluster, t: Template)
    ensures Referenced(c, t) <==>
      c.podsIn(t.namespace).Some? && !NoneRefers(c.podsIn(t.namespace).value, t.name)
  {
    if c.podsIn(t.namespace).Some? {
      var pods := c.podsIn(t.namespace).value;
      if Referenced(c, t) {
        var i :| 0 <= i < |pods| && Mentions(pods[i], t.name);
        var k :| 0 <= k < |pods[i].spec.resourceClaims.value| &&
          pods[i].spec.resourceClaims.value[k].template == Some(t.name);
        assert pods[i] in pods && pods[i].spec.resourceClaims.value[k] in pods[i].spec.resourceClaims.value;
      }
      if !NoneRefers(pods, t.name) {
        var pod, claim :| pod in pods && pod.spec.resourceClaims.Some? && claim in pod.spec.resourceClaims.value &&
          claim.template == Some(t.name);
        var i :| 0 <= i < |pods| && pods[i] == pod;
        var k :| 0 <= k < |pod.spec.resourceClaims.value| && pod.spec.resourceClaims.value[k] == claim;
        assert Mentions(pods[i], t.name);
      }
    }
  }

  // A template that any claim of any listed pod is made from is in use.
  lemma ReferredIsUsed(c: Cluster, t: Template, pod: Pod, claim: PodClaim)
    requires c.podsIn(t.namespace).Some? && pod in c.podsIn(t.namespace).value
    requires pod.spec.resourceClaims.Some? && claim in pod.spec.resourceClaims.value && claim.template == Some(t.name)
    ensures TemplateVerdict(c, t) == Used(TemplateId(t))
  {
    ReferencedMeans(c, t);
  }

  lemma NotUsedIsUnreferenced(passes: seq<Pass>, q: nat, p: nat, t: Template)
    requires p < |passes| && NotUsedBetween(passes, q, p, TemplateId(t)) && !Referenced(passes[p].seen, t)
    ensures UnreferencedSince(passes, q, p, t)
  {
    forall r | q < r <= p && Lists(passes[r].seen, t) && passes[r].seen.podsIn(t.namespace).Some?
      ensures NoneRefers(passes[r].seen.podsIn(t.namespace).value, t.name)
    {
      ReferencedMeans(passes[r].seen, t);
      if r < p {
        var k := ListedVerdict(passes[r].seen, t);
        assert SeesUse(passes[r], TemplateId(t)) || !Referenced(passes[r].seen, t);
      }
    }
  }

  predicate ListsClaim(c: Cluster, claim: Claim) {
    c.claims.Some? && claim in c.claims.value
  }

  // The first reference to a pod among the owners
  predicate IsOwner(owners: seq<OwnerRef>, i: int) {
    && 0 <= i < |owners| && owners[i].kind == "Pod" && owners[i].apiVersion == "v1"
    && forall j :: 0 <= j < i ==> owners[j].kind != "Pod" || owners[j].apiVersion != "v1"
  }

  // The claim was made from a template and names an owner pod, which exists.
  ghost predicate OwnerFound(c: Cluster, claim: Claim) {
    && "resource.kubernetes.io/pod-claim-name" in claim.annotations
    && exists i :: IsOwner(claim.owners, i) && claim.owners[i].name != "" &&
                   c.getPod(claim.namespace, claim.owners[i].name) == Found
  }

  // It was made from a template and names no owner pod, or one that is not found.
  ghost predicate OwnerGone(c: Cluster, claim: Claim) {
    && "resource.kubernetes.io/pod-claim-name" in claim.annotations
    && forall i :: IsOwner(claim.owners, i) && claim.owners[i].name != "" ==>
                   c.getPod(claim.namespace, claim.owners[i].name) == NotFound
  }

  lemma {:induction false} OwnerPodMeans(owners: seq<OwnerRef>)
    ensures forall i :: IsOwner(owners, i) ==> owners[i].name == OwnerPod(owners)
    ensures OwnerPod(owners) != "" ==> exists i :: IsOwner(owners, i)
  {
    if owners != [] && !(owners[0].kind == "Pod" && owners[0].apiVersion == "v1") {
      OwnerPodMeans(owners[1..]);
      forall i | IsOwner(owners, i)
        ensures IsOwner(owners[1..], i - 1)
      {
        assert forall j :: 0 <= j < i - 1 ==> owners[1..][j] == owners[j + 1];
      }
      if OwnerPod(owners) != "" {
        var i :| IsOwner(owners[1..], i);
        assert forall j :: 1 <= j <= i ==> owners[j] == owners[1..][j - 1];
        assert IsOwner(owners, i + 1);
      }
    } else if owners != [] {
      assert IsOwner(owners, 0);
    }
  }

  // What a pass concludes about a claim, from its owner references
  lemma ClaimVerdictMeans(c: Cluster, claim: Claim)
    ensures ClaimVerdict(c, claim) == Used(ClaimId(claim)) <==> OwnerFound(c, claim)
    ensures ClaimVerdict(c, claim).Orphan? <==> OwnerGone(c, claim)
    ensures ClaimVerdict(c, claim) == Ignored || ClaimVerdict(c, claim).id == ClaimId(claim)
  {
    OwnerPodMeans(claim.owners);
  }

  ghost predicate NoOwnerBetween(passes: seq<Pass>, q: nat, p: nat, id: Id)
    requires p <= |passes|
  {
    forall r, claim :: q < r < p && ListsClaim(passes[r].seen, claim) && ClaimId(claim) == id ==>
      !OwnerFound(passes[r].seen, claim)
  }

  // For claims: no pass after the detection found the owner pod, and the one
  // that deletes found that it is gone.
  lemma {:induction false} ClaimsReapedSafely(passes: seq<Pass>, p: nat, i: nat, x: Claim, cfg: Config)
    returns (q: nat, j: nat, gone: Claim)
    requires Proper(passes) && p < |passes| && i < |passes[p].steps|
    requires DeletesAt(FRESH, passes, p, i, cfg) && passes[p].steps[i].id == ClaimId(x)
    ensures DetectedEarlier(passes, q, j, p, ClaimId(x), passes[p].steps[i].checkedAt, cfg)
    ensures NoOwnerBetween(passes, q, p, ClaimId(x))
    ensures ListsClaim(passes[p].seen, gone) && ClaimId(gone) == ClaimId(x) && OwnerGone(passes[p].seen, gone)
  {
    q, j := ReapIsSafe(passes, p, i, cfg);
    gone := OrphanHasNoOwner(passes[p], i, x);
    NotUsedIsUnowned(passes, q, p, ClaimId(x));
  }

  lemma NotUsedIsUnowned(passes: seq<Pass>, q: nat, p: nat, id: Id)
    requires p <= |passes| && NotUsedBetween(passes, q, p, id)
    ensures NoOwnerBetween(passes, q, p, id)
  {
    forall r, claim | q < r < p && ListsClaim(passes[r].seen, claim) && ClaimId(claim) == id
      ensures !OwnerFound(passes[r].seen, claim)
    {
      var k := ListedClaimVerdict(passes[r].seen, claim);
      ClaimVerdictMeans(passes[r].seen, claim);
      assert SeesUse(passes[r], id) || !OwnerFound(passes[r].seen, claim);
    }
  }

  lemma ListedClaimVerdict(c: Cluster, claim: Claim) returns (k: nat)
    requires ListsClaim(c, claim)
    ensures k < |Verdicts(c)| && Verdicts(c)[k] == ClaimVerdict(c, claim)
  {
    var l: nat :| l < |c.claims.value| && c.claims.value[l] == claim;
    k := |TemplateVerdicts(c)| + l;
    assert Verdicts(c)[k] == ClaimVerdicts(c)[l];
  }

  lemma OrphanHasNoOwner(p: Pass, i: nat, x: Claim) returns (gone: Claim)
    requires IsPass(p) && i < |p.steps| && p.steps[i].Orphaned? && p.steps[i].id == ClaimId(x)
    ensures ListsClaim(p.seen, gone) && ClaimId(gone) == ClaimId(x) && OwnerGone(p.seen, gone)
  {
    var n := |p.steps| - 1;
    StepsAreVerdicts(p.steps[..n], Verdicts(p.seen), p.seen, p.start, p.end, i);
    assert p.steps[..n][i] == p.steps[i];
    var k: nat :| k < |Verdicts(p.seen)| && Carries(p.steps[i], Verdicts(p.seen)[k], p.seen, p.start, p.end);
    OrphanCarried(p.steps[i], Verdicts(p.seen)[k], p);
    gone := OrphanedClaim(p.seen, k, x);
  }

  lemma OrphanedClaim(c: Cluster, k: nat, x: Claim) returns (gone: Claim)
    requires k < |Verdicts(c)| && Verdicts(c)[k].Orphan? && Verdicts(c)[k].id == ClaimId(x)
    ensures ListsClaim(c, gone) && ClaimId(gone) == ClaimId(x) && OwnerGone(c, gone)
  {
    gone := c.claims.value[k - |TemplateVerdicts(c)|];
    assert Verdicts(c)[k] == ClaimVerdict(c, gone);
    ClaimVerdictMeans(c, gone);
  }

  predicate Lists(c: Cluster, t: Template) {
    c.templates.Some? && t in c.templates.value
  }

  lemma ListedVerdict(c: Cluster, t: Template) returns (k: nat)
    requires Lists(c, t)
    ensures k < |Verdicts(c)| && Verdicts(c)[k] == TemplateVerdict(c, t)
  {
    k :| k < |c.templates.value| && c.templates.value[k] == t;
    assert Verdicts(c)[k] == TemplateVerdict(c, t);
  }

  lemma OrphanIsUnreferenced(p: Pass, i: nat, t: Template)
    requires IsPass(p) && i < |p.steps| && p.steps[i].Orphaned? && p.steps[i].id == TemplateId(t)
    ensures !Referenced(p.seen, t)
  {
    var n := |p.steps| - 1;
    StepsAreVerdicts(p.steps[..n], Verdicts(p.seen), p.seen, p.start, p.end, i);
    assert p.steps[..n][i] == p.steps[i];
    var k: nat :| k < |Verdicts(p.seen)| && Carries(p.steps[i], Verdicts(p.seen)[k], p.seen, p.start, p.end);
    OrphanCarried(p.steps[i], Verdicts(p.seen)[k], p);
    OrphanVerdict(p.seen, k, t);
  }

  lemma OrphanCarried(step: Step, v: Verdict, p: Pass)
    requires step.Orphaned? && Carries(step, v, p.seen, p.start, p.end)
    ensures v.Orphan? && v.id == step.id
  {
  }

  lemma OrphanVerdict(c: Cluster, k: nat, t: Template)
    requires k < |Verdicts(c)| && Verdicts(c)[k].Orphan? && Verdicts(c)[k].id == TemplateId(t)
    ensures !Referenced(c, t)
  {
    assert Verdicts(c)[k] == TemplateVerdict(c, c.templates.value[k]);
  }
}
