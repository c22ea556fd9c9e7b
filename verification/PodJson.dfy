// A pod as the JSON document the patch
// is applied to. Absent members are left
// out of the document. The lemmas say
// what an edit of the document does to
// the pod.
module PodJson {
  import opened Basics
  import opened Json
  import opened Pods
  import Text

  function Set(m: Members, name: string, v: Option<Json>): Members {
    if v.Some? then m[name := v.value] else m - {name}
  }

  lemma SetAgain(m: Members, name: string, before: Option<Json>, v: Json)
    ensures Set(m, name, before)[name := v] == Set(m, name, Some(v))
  {
  }

  function Strings(xs: seq<string>): Json {
    Array(seq(|xs|, i requires 0 <= i < |xs| => String(xs[i])))
  }

  function StringMap(m: map<string, string>): Json {
    Object(map k | k in m :: String(m[k]))
  }

  function QuantityMap(m: map<string, int>): Json {
    Object(map k | k in m :: Number(m[k]))
  }

  function OptionalStringMap(m: Option<map<string, string>>): Option<Json> {
    if m.None? then None else Some(StringMap(m.value))
  }

  function OptionalQuantities(m: Option<map<string, int>>): Option<Json> {
    if m.None? then None else Some(QuantityMap(m.value))
  }

  function OperatorName(op: Operator): string {
    match op
    case In => "In"
    case NotIn => "NotIn"
    case Exists => "Exists"
    case DoesNotExist => "DoesNotExist"
    case Other(name) => name
  }

  function RequirementJson(r: Requirement): Json {
    Object(map["key" := String(r.key), "operator" := String(OperatorName(r.op)), "values" := Strings(r.values)])
  }

  function RequirementsJson(rs: seq<Requirement>): Json {
    Array(RequirementItems(rs))
  }

  function RequirementItems(rs: seq<Requirement>): seq<Json> {
    seq(|rs|, i requires 0 <= i < |rs| => RequirementJson(rs[i]))
  }

  function OptionalRequirements(rs: Option<seq<Requirement>>): Option<Json> {
    if rs.None? then None else Some(RequirementsJson(rs.value))
  }

  function TermJson(t: Term): Json {
    Object(Set(Set(map[], "matchExpressions", OptionalRequirements(t.expressions)),
               "matchFields", OptionalRequirements(t.fields)))
  }

  function TermItems(ts: seq<Term>): seq<Json> {
    seq(|ts|, i requires 0 <= i < |ts| => TermJson(ts[i]))
  }

  // corev1.NodeSelector
  function NodeSelectorJson(ts: seq<Term>): Json {
    Object(map["nodeSelectorTerms" := Array(TermItems(ts))])
  }

  const REQUIRED := "requiredDuring" + "SchedulingIgnored" + "DuringExecution"

  function NodeAffinityJson(a: NodeAffinity): Json {
    Object(Set(a.rest, REQUIRED, if a.required.None? then None else Some(NodeSelectorJson(a.required.value))))
  }

  function PodTermJson(t: PodTerm): Json {
    Object(map["topologyKey" := String(t.topologyKey), "labelSelector" := t.selector,
               "namespaces" := Strings(t.namespaces)])
  }

  function PodTermsJson(ts: PodTerms): Json {
    var terms := seq(|ts.required|, i requires 0 <= i < |ts.required| => PodTermJson(ts.required[i]));
    Object(ts.rest[REQUIRED := Array(terms)])
  }

  function OptionalPodTerms(ts: Option<PodTerms>): Option<Json> {
    if ts.None? then None else Some(PodTermsJson(ts.value))
  }

  function AffinityJson(a: Affinity): Json {
    Object(Set(Set(Set(map[], "podAffinity", OptionalPodTerms(a.pod)),
                   "podAntiAffinity", OptionalPodTerms(a.anti)),
               "nodeAffinity", if a.node.None? then None else Some(NodeAffinityJson(a.node.value))))
  }

  function ClaimRefJson(r: ClaimRef): Json {
    Object(Set(map["name" := String(r.name)], "request", if r.request == "" then None else Some(String(r.request))))
  }

  function ClaimRefItems(rs: seq<ClaimRef>): seq<Json> {
    seq(|rs|, i requires 0 <= i < |rs| => ClaimRefJson(rs[i]))
  }

  function ResourcesJson(r: Resources): Json {
    Object(Set(Set(Set(map[], "requests", OptionalQuantities(r.requests)),
                   "limits", OptionalQuantities(r.limits)),
               "claims", if r.claims.None? then None else Some(Array(ClaimRefItems(r.claims.value)))))
  }

  function ContainerJson(c: Container): Json {
    Object(c.rest["resources" := ResourcesJson(c.resources)])
  }

  function ContainerItems(cs: seq<Container>): seq<Json> {
    seq(|cs|, i requires 0 <= i < |cs| => ContainerJson(cs[i]))
  }

  function PodClaimJson(c: PodClaim): Json {
    Object(Set(c.rest["name" := String(c.name)], "resourceClaimTemplateName",
               if c.template.None? then None else Some(String(c.template.value))))
  }

  function PodClaimItems(cs: seq<PodClaim>): seq<Json> {
    seq(|cs|, i requires 0 <= i < |cs| => PodClaimJson(cs[i]))
  }

  function OptionalClaims(cs: Option<seq<PodClaim>>): Option<Json> {
    if cs.None? then None else Some(Array(PodClaimItems(cs.value)))
  }

  function OptionalAffinity(a: Option<Affinity>): Option<Json> {
    if a.None? then None else Some(AffinityJson(a.value))
  }

  // The members of a pod spec that no patch touches
  function SpecRest(s: Spec): Members {
    Set(Set(s.rest, "nodeName", if s.nodeName == "" then None else Some(String(s.nodeName))),
        "nodeSelector", OptionalStringMap(s.nodeSelector))
  }

  function SpecJson(s: Spec): Json {
    Object(Members3(SpecRest(s), Array(ContainerItems(s.containers)), OptionalClaims(s.resourceClaims),
                    OptionalAffinity(s.affinity)))
  }

  function Members3(m: Members, containers: Json, claims: Option<Json>, affinity: Option<Json>): Members {
    Set(Set(Set(m, "containers", Some(containers)), "resourceClaims", claims), "affinity", affinity)
  }

  // Replacing one of the three members leaves the other two.
  lemma ReplaceMember(m: Members, containers: Json, claims: Option<Json>, affinity: Option<Json>, v: Json)
    ensures Members3(m, containers, claims, affinity)["containers" := v] == Members3(m, v, claims, affinity)
    ensures Members3(m, containers, claims, affinity)["resourceClaims" := v] ==
            Members3(m, containers, Some(v), affinity)
    ensures Members3(m, containers, claims, affinity)["affinity" := v] == Members3(m, containers, claims, Some(v))
    ensures Members3(m, containers, claims, affinity)["containers"] == containers
    ensures claims.Some? ==>
      "resourceClaims" in Members3(m, containers, claims, affinity) &&
      Members3(m, containers, claims, affinity)["resourceClaims"] == claims.value
    ensures affinity.Some? ==>
      "affinity" in Members3(m, containers, claims, affinity) &&
      Members3(m, containers, claims, affinity)["affinity"] == affinity.value
  {
    var a := Set(m, "containers", Some(containers));
    var b := Set(a, "resourceClaims", claims);
    SetAgain(m, "containers", Some(containers), v);
    SetAgain(a, "resourceClaims", claims, v);
    SetAgain(b, "affinity", affinity, v);
  }

  function MetaJson(m: Meta): Json {
    Object(Set(m.rest, "annotations", OptionalStringMap(m.annotations)))
  }

  function Document(p: Pod): Json {
    Object(p.rest["metadata" := MetaJson(p.meta)]["spec" := SpecJson(p.spec)])
  }

  // ---- one edit at a time ---------------------------------------------------
  // Each lemma below says what an edit below a typed object does to it, in the
  // terms of that object.

  lemma EditSpec(p: Pod, rest: seq<string>, edit: Edit, s: Spec)
    requires rest != [] && Change(SpecJson(p.spec), rest, edit) == Some(SpecJson(s))
    ensures Change(Document(p), ["spec"] + rest, edit) == Some(Document(p.(spec := s)))
  {
    ChangeField(Document(p).fields, "spec", rest, edit);
    assert Document(p).fields["spec" := SpecJson(s)] == Document(p.(spec := s)).fields;
  }

  lemma EditMeta(p: Pod, rest: seq<string>, edit: Edit, m: Meta)
    requires rest != [] && Change(MetaJson(p.meta), rest, edit) == Some(MetaJson(m))
    ensures Change(Document(p), ["metadata"] + rest, edit) == Some(Document(p.(meta := m)))
  {
    ChangeField(Document(p).fields, "metadata", rest, edit);
    assert Document(p).fields["metadata" := MetaJson(m)] == Document(p.(meta := m)).fields;
  }

  lemma StartAnnotations(m: Meta, a: map<string, string>)
    ensures Change(MetaJson(m), ["annotations"], Insert(StringMap(a))) == Some(MetaJson(m.(annotations := Some(a))))
  {
    assert MetaJson(m).fields["annotations" := StringMap(a)] == MetaJson(m.(annotations := Some(a))).fields;
  }

  lemma AddAnnotation(m: Meta, name: string, v: string)
    requires m.annotations.Some?
    ensures Change(MetaJson(m), ["annotations"] + [name], Insert(String(v))) ==
      Some(MetaJson(m.(annotations := Some(m.annotations.value[name := v]))))
  {
    var before := m.annotations.value;
    var after := before[name := v];
    assert StringMap(before).fields[name := String(v)] == StringMap(after).fields;
    ChangeField(MetaJson(m).fields, "annotations", [name], Insert(String(v)));
    assert MetaJson(m).fields["annotations" := StringMap(after)] == MetaJson(m.(annotations := Some(after))).fields;
  }

  lemma EditContainer(c: Container, rest: seq<string>, edit: Edit, r: Resources)
    requires rest != [] && Change(ResourcesJson(c.resources), rest, edit) == Some(ResourcesJson(r))
    ensures Change(ContainerJson(c), ["resources"] + rest, edit) == Some(ContainerJson(c.(resources := r)))
  {
    ChangeField(ContainerJson(c).fields, "resources", rest, edit);
    assert ContainerJson(c).fields["resources" := ResourcesJson(r)] == ContainerJson(c.(resources := r)).fields;
  }

  lemma EditItem(cs: seq<Container>, i: nat, rest: seq<string>, edit: Edit, c: Container)
    requires i < |cs| && rest != []
    requires Change(ContainerJson(cs[i]), rest, edit) == Some(ContainerJson(c))
    ensures Change(Array(ContainerItems(cs)), [Text.Decimal(i)] + rest, edit) == Some(Array(ContainerItems(cs[i := c])))
  {
    ChangeItem(ContainerItems(cs), i, rest, edit);
    assert ContainerItems(cs)[i := ContainerJson(c)] == ContainerItems(cs[i := c]);
  }

  lemma EditContainers(s: Spec, rest: seq<string>, edit: Edit, cs: seq<Container>)
    requires rest != []
    requires Change(Array(ContainerItems(s.containers)), rest, edit) == Some(Array(ContainerItems(cs)))
    ensures Change(SpecJson(s), ["containers"] + rest, edit) == Some(SpecJson(s.(containers := cs)))
  {
    ChangeField(SpecJson(s).fields, "containers", rest, edit);
    ReplaceInSpec(s, Array(ContainerItems(cs)));
  }

  lemma ReplaceInSpec(s: Spec, v: Json)
    ensures var fields, rest := SpecJson(s).fields, SpecRest(s);
      var cs, claims := Array(ContainerItems(s.containers)), OptionalClaims(s.resourceClaims);
      var affinity := OptionalAffinity(s.affinity);
      && fields["containers" := v] == Members3(rest, v, claims, affinity)
      && fields["resourceClaims" := v] == Members3(rest, cs, Some(v), affinity)
      && fields["affinity" := v] == Members3(rest, cs, claims, Some(v))
      && "containers" in fields && fields["containers"] == cs
      && (claims.Some? ==> "resourceClaims" in fields && fields["resourceClaims"] == claims.value)
      && (affinity.Some? ==> "affinity" in fields && fields["affinity"] == affinity.value)
  {
    ReplaceMember(SpecRest(s), Array(ContainerItems(s.containers)), OptionalClaims(s.resourceClaims),
                  OptionalAffinity(s.affinity), v);
  }

  lemma EditResources(p: Pod, i: nat, rest: seq<string>, edit: Edit, r: Resources)
    requires i < |p.spec.containers| && rest != []
    requires Change(ResourcesJson(p.spec.containers[i].resources), rest, edit) == Some(ResourcesJson(r))
    ensures Change(Document(p), ["spec"] + (["containers"] + ([Text.Decimal(i)] + (["resources"] + rest))), edit) ==
      Some(Document(WithResources(p, i, r)))
  {
    var c := p.spec.containers[i];
    EditContainer(c, rest, edit, r);
    EditItem(p.spec.containers, i, ["resources"] + rest, edit, c.(resources := r));
    EditContainers(p.spec, [Text.Decimal(i)] + (["resources"] + rest), edit,
                   p.spec.containers[i := c.(resources := r)]);
    EditSpec(p, ["containers"] + ([Text.Decimal(i)] + (["resources"] + rest)), edit,
             p.spec.(containers := p.spec.containers[i := c.(resources := r)]));
  }

  function WithResources(p: Pod, i: nat, r: Resources): Pod
    requires i < |p.spec.containers|
  {
    p.(spec := p.spec.(containers := p.spec.containers[i := p.spec.containers[i].(resources := r)]))
  }

  lemma DropRequest(r: Resources, name: string)
    requires r.requests.Some? && name in r.requests.value
    ensures Change(ResourcesJson(r), ["requests"] + [name], Delete) ==
      Some(ResourcesJson(r.(requests := Some(r.requests.value - {name}))))
  {
    var m := QuantityMap(r.requests.value).fields;
    ChangeField(ResourcesJson(r).fields, "requests", [name], Delete);
    assert m - {name} == QuantityMap(r.requests.value - {name}).fields;
    assert ResourcesJson(r).fields["requests" := Object(m - {name})] ==
      ResourcesJson(r.(requests := Some(r.requests.value - {name}))).fields;
  }

  lemma DropLimit(r: Resources, name: string)
    requires r.limits.Some? && name in r.limits.value
    ensures Change(ResourcesJson(r), ["limits"] + [name], Delete) ==
      Some(ResourcesJson(r.(limits := Some(r.limits.value - {name}))))
  {
    var m := QuantityMap(r.limits.value).fields;
    ChangeField(ResourcesJson(r).fields, "limits", [name], Delete);
    assert m - {name} == QuantityMap(r.limits.value - {name}).fields;
    assert ResourcesJson(r).fields["limits" := Object(m - {name})] ==
      ResourcesJson(r.(limits := Some(r.limits.value - {name}))).fields;
  }

  lemma StartRefs(r: Resources, refs: seq<ClaimRef>)
    ensures Change(ResourcesJson(r), ["claims"], Insert(Array(ClaimRefItems(refs)))) ==
      Some(ResourcesJson(r.(claims := Some(refs))))
  {
    assert ResourcesJson(r).fields["claims" := Array(ClaimRefItems(refs))] ==
      ResourcesJson(r.(claims := Some(refs))).fields;
  }

  lemma AppendRef(r: Resources, ref: ClaimRef)
    requires r.claims.Some?
    ensures Change(ResourcesJson(r), ["claims"] + ["-"], Insert(ClaimRefJson(ref))) ==
      Some(ResourcesJson(r.(claims := Some(r.claims.value + [ref]))))
  {
    var more := r.claims.value + [ref];
    ChangeField(ResourcesJson(r).fields, "claims", ["-"], Insert(ClaimRefJson(ref)));
    assert ClaimRefItems(more) == ClaimRefItems(r.claims.value) + [ClaimRefJson(ref)];
    assert ResourcesJson(r).fields["claims" := Array(ClaimRefItems(more))] ==
      ResourcesJson(r.(claims := Some(more))).fields;
  }

  lemma StartClaims(s: Spec, claims: seq<PodClaim>)
    ensures Change(SpecJson(s), ["resourceClaims"], Insert(Array(PodClaimItems(claims)))) ==
      Some(SpecJson(s.(resourceClaims := Some(claims))))
  {
    ReplaceInSpec(s, Array(PodClaimItems(claims)));
  }

  lemma AppendClaim(s: Spec, claim: PodClaim)
    requires s.resourceClaims.Some?
    ensures Change(SpecJson(s), ["resourceClaims"] + ["-"], Insert(PodClaimJson(claim))) ==
      Some(SpecJson(s.(resourceClaims := Some(s.resourceClaims.value + [claim]))))
  {
    var more := s.resourceClaims.value + [claim];
    ChangeField(SpecJson(s).fields, "resourceClaims", ["-"], Insert(PodClaimJson(claim)));
    assert PodClaimItems(more) == PodClaimItems(s.resourceClaims.value) + [PodClaimJson(claim)];
    ReplaceInSpec(s, Array(PodClaimItems(more)));
  }

  lemma SetAffinity(s: Spec, a: Affinity)
    ensures Change(SpecJson(s), ["affinity"], Insert(AffinityJson(a))) == Some(SpecJson(s.(affinity := Some(a))))
  {
    ReplaceInSpec(s, AffinityJson(a));
  }

  lemma EditAffinity(s: Spec, rest: seq<string>, edit: Edit, a: Affinity)
    requires s.affinity.Some? && rest != []
    requires Change(AffinityJson(s.affinity.value), rest, edit) == Some(AffinityJson(a))
    ensures Change(SpecJson(s), ["affinity"] + rest, edit) == Some(SpecJson(s.(affinity := Some(a))))
  {
    ChangeField(SpecJson(s).fields, "affinity", rest, edit);
    ReplaceInSpec(s, AffinityJson(a));
  }

  lemma SetNodeAffinity(a: Affinity, n: NodeAffinity)
    ensures Change(AffinityJson(a), ["nodeAffinity"], Insert(NodeAffinityJson(n))) ==
      Some(AffinityJson(a.(node := Some(n))))
  {
    assert AffinityJson(a).fields["nodeAffinity" := NodeAffinityJson(n)] == AffinityJson(a.(node := Some(n))).fields;
  }

  lemma EditNodeAffinity(a: Affinity, rest: seq<string>, edit: Edit, n: NodeAffinity)
    requires a.node.Some? && rest != []
    requires Change(NodeAffinityJson(a.node.value), rest, edit) == Some(NodeAffinityJson(n))
    ensures Change(AffinityJson(a), ["nodeAffinity"] + rest, edit) == Some(AffinityJson(a.(node := Some(n))))
  {
    ChangeField(AffinityJson(a).fields, "nodeAffinity", rest, edit);
    assert AffinityJson(a).fields["nodeAffinity" := NodeAffinityJson(n)] == AffinityJson(a.(node := Some(n))).fields;
  }

  lemma SetRequired(n: NodeAffinity, ts: seq<Term>)
    ensures Change(NodeAffinityJson(n), [REQUIRED], Insert(NodeSelectorJson(ts))) ==
      Some(NodeAffinityJson(n.(required := Some(ts))))
  {
    assert NodeAffinityJson(n).fields[REQUIRED := NodeSelectorJson(ts)] ==
      NodeAffinityJson(n.(required := Some(ts))).fields;
  }

  // Appending to the matchFields of term i: works exactly when that term
  // already has a matchFields array.
  lemma AppendField(n: NodeAffinity, i: nat, f: Requirement)
    requires n.required.Some? && i < |n.required.value|
    ensures var ts := n.required.value;
      Change(NodeAffinityJson(n), [REQUIRED] + (["nodeSelectorTerms"] + ([Text.Decimal(i)] + ["matchFields", "-"])),
             Insert(RequirementJson(f))) ==
      if ts[i].fields.None? then None
      else Some(NodeAffinityJson(n.(required := Some(ts[i := ts[i].(fields := Some(ts[i].fields.value + [f]))]))))
  {
    var ts := n.required.value;
    var edit := Insert(RequirementJson(f));
    var tail := ["matchFields", "-"];
    assert tail == ["matchFields"] + ["-"];
    ChangeField(NodeAffinityJson(n).fields, REQUIRED, ["nodeSelectorTerms"] + ([Text.Decimal(i)] + tail), edit);
    ChangeField(NodeSelectorJson(ts).fields, "nodeSelectorTerms", [Text.Decimal(i)] + tail, edit);
    ChangeItem(TermItems(ts), i, tail, edit);
    if ts[i].fields.Some? {
      var t := ts[i].(fields := Some(ts[i].fields.value + [f]));
      AppendToTerm(ts[i], f);
      ReplaceTerm(n, ts, i, t);
    } else {
      assert "matchFields" !in TermJson(ts[i]).fields;
    }
  }

  lemma ReplaceTerm(n: NodeAffinity, ts: seq<Term>, i: nat, t: Term)
    requires n.required == Some(ts) && i < |ts|
    ensures Array(TermItems(ts)[i := TermJson(t)]) == Array(TermItems(ts[i := t]))
    ensures Object(NodeSelectorJson(ts).fields["nodeSelectorTerms" := Array(TermItems(ts[i := t]))]) ==
      NodeSelectorJson(ts[i := t])
    ensures Object(NodeAffinityJson(n).fields[REQUIRED := NodeSelectorJson(ts[i := t])]) ==
      NodeAffinityJson(n.(required := Some(ts[i := t])))
  {
    assert TermItems(ts)[i := TermJson(t)] == TermItems(ts[i := t]);
    assert NodeSelectorJson(ts).fields["nodeSelectorTerms" := Array(TermItems(ts[i := t]))] ==
      NodeSelectorJson(ts[i := t]).fields;
    SetAgain(n.rest, REQUIRED, Some(NodeSelectorJson(ts)), NodeSelectorJson(ts[i := t]));
  }

  lemma AppendToTerm(t: Term, f: Requirement)
    requires t.fields.Some?
    ensures Change(TermJson(t), ["matchFields"] + ["-"], Insert(RequirementJson(f))) ==
      Some(TermJson(t.(fields := Some(t.fields.value + [f]))))
  {
    var more := t.fields.value + [f];
    ChangeField(TermJson(t).fields, "matchFields", ["-"], Insert(RequirementJson(f)));
    assert RequirementItems(more) == RequirementItems(t.fields.value) + [RequirementJson(f)];
    assert TermJson(t).fields["matchFields" := RequirementsJson(more)] == TermJson(t.(fields := Some(more))).fields;
  }
}
