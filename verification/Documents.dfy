// What the patched document shows: the
// members of the JSON value, read by key
// and index: the pin, the mark, claims,
// references and amounts.
module Documents {
  import opened Basics
  import opened Json
  import opened Pods
  import opened PodJson
  import opened Constraints
  import opened Builders
  import opened Batches
  import opened Mutator

  datatype Step = Key(name: string) | At(index: nat)

  function Read(j: Json, path: seq<Step>): Option<Json>
    decreases |path|
  {
    if path == [] then Some(j)
    else
      match path[0]
      case Key(name) => if j.Object? && name in j.fields then Read(j.fields[name], path[1..]) else None
      case At(i) => if j.Array? && i < |j.items| then Read(j.items[i], path[1..]) else None
  }

  lemma ReadFirst(j: Json, s: Step, rest: seq<Step>)
    ensures Read(j, [s] + rest) ==
      match s
      case Key(name) => if j.Object? && name in j.fields then Read(j.fields[name], rest) else None
      case At(i) => if j.Array? && i < |j.items| then Read(j.items[i], rest) else None
  {
    assert ([s] + rest)[1..] == rest;
  }

  // ---- any pod --------------------------------------------------------------

  lemma ReadSpec(p: Pod, name: string, rest: seq<Step>)
    ensures Read(Document(p), [Key("spec")] + ([Key(name)] + rest)) ==
      if name in SpecJson(p.spec).fields then Read(SpecJson(p.spec).fields[name], rest) else None
  {
    ReadFirst(Document(p), Key("spec"), [Key(name)] + rest);
    ReadFirst(SpecJson(p.spec), Key(name), rest);
  }

  // Every claim of the pod stands under its index, with its name and template.
  lemma ClaimsShown(p: Pod, k: nat)
    requires p.spec.resourceClaims.Some? && k < |p.spec.resourceClaims.value|
    ensures var claim, at := p.spec.resourceClaims.value[k], [Key("spec"), Key("resourceClaims"), At(k)];
      && Read(Document(p), at + [Key("name")]) == Some(String(claim.name))
      && (claim.template.Some? ==>
            Read(Document(p), at + [Key("resourceClaimTemplateName")]) == Some(String(claim.template.value)))
  {
    var claims := p.spec.resourceClaims.value;
    var claim := claims[k];
    forall name: string
      ensures Read(Document(p), [Key("spec"), Key("resourceClaims"), At(k)] + [Key(name)]) ==
        Read(PodClaimJson(claim), [Key(name)])
    {
      var path := [Key("spec"), Key("resourceClaims"), At(k)] + [Key(name)];
      assert path == [Key("spec")] + ([Key("resourceClaims")] + ([At(k)] + [Key(name)]));
      ReadSpec(p, "resourceClaims", [At(k)] + [Key(name)]);
      ReadFirst(Array(PodClaimItems(claims)), At(k), [Key(name)]);
    }
    ReadFirst(PodClaimJson(claim), Key("name"), []);
    ReadFirst(PodClaimJson(claim), Key("resourceClaimTemplateName"), []);
    assert [Key("name")] + [] == [Key("name")];
    assert [Key("resourceClaimTemplateName")] + [] == [Key("resourceClaimTemplateName")];
  }

  lemma ReadContainer(p: Pod, i: nat, rest: seq<Step>)
    requires i < |p.spec.containers|
    ensures Read(Document(p), [Key("spec"), Key("containers"), At(i)] + rest) ==
      Read(ContainerJson(p.spec.containers[i]), rest)
  {
    assert [Key("spec"), Key("containers"), At(i)] + rest == [Key("spec")] + ([Key("containers")] + ([At(i)] + rest));
    ReadSpec(p, "containers", [At(i)] + rest);
    ReadFirst(Array(ContainerItems(p.spec.containers)), At(i), rest);
  }

  lemma ReadResources(p: Pod, i: nat, name: string, rest: seq<Step>)
    requires i < |p.spec.containers|
    ensures Read(Document(p), [Key("spec"), Key("containers"), At(i), Key("resources"), Key(name)] + rest) ==
      var r := ResourcesJson(p.spec.containers[i].resources);
      if name in r.fields then Read(r.fields[name], rest) else None
  {
    assert [Key("spec"), Key("containers"), At(i), Key("resources"), Key(name)] + rest ==
      [Key("spec"), Key("containers"), At(i)] + ([Key("resources")] + ([Key(name)] + rest));
    ReadContainer(p, i, [Key("resources")] + ([Key(name)] + rest));
    InsideContainer(p.spec.containers[i], name, rest);
  }

  lemma InsideContainer(c: Container, name: string, rest: seq<Step>)
    ensures Read(ContainerJson(c), [Key("resources")] + ([Key(name)] + rest)) ==
      var r := ResourcesJson(c.resources);
      if name in r.fields then Read(r.fields[name], rest) else None
  {
    ReadFirst(ContainerJson(c), Key("resources"), [Key(name)] + rest);
    ReadFirst(ResourcesJson(c.resources), Key(name), rest);
  }

  // Every reference of a container stands under its index, with the name of the
  // claim and the request.
  lemma ReferencesShown(p: Pod, i: nat, k: nat)
    requires i < |p.spec.containers| && p.spec.containers[i].resources.claims.Some?
    requires k < |p.spec.containers[i].resources.claims.value|
    ensures var ref := p.spec.containers[i].resources.claims.value[k];
      var at := [Key("spec"), Key("containers"), At(i), Key("resources"), Key("claims")];
      && Read(Document(p), at + [At(k), Key("name")]) == Some(String(ref.name))
      && (ref.request != "" ==> Read(Document(p), at + [At(k), Key("request")]) == Some(String(ref.request)))
  {
    var refs := p.spec.containers[i].resources.claims.value;
    forall name: string
      ensures Read(Array(ClaimRefItems(refs)), [At(k), Key(name)]) == Read(ClaimRefJson(refs[k]), [Key(name)])
    {
      assert [At(k), Key(name)] == [At(k)] + [Key(name)];
      ReadFirst(Array(ClaimRefItems(refs)), At(k), [Key(name)]);
    }
    ReadResources(p, i, "claims", [At(k), Key("name")]);
    ReadResources(p, i, "claims", [At(k), Key("request")]);
    ReadFirst(ClaimRefJson(refs[k]), Key("name"), []);
    ReadFirst(ClaimRefJson(refs[k]), Key("request"), []);
    assert [Key("name")] + [] == [Key("name")] && [Key("request")] + [] == [Key("request")];
  }

  // What a container asks for stands under the names of the resources.
  lemma AmountsShown(p: Pod, i: nat, name: string)
    requires i < |p.spec.containers|
    ensures var r := p.spec.containers[i].resources;
      var at := [Key("spec"), Key("containers"), At(i), Key("resources")];
      && Read(Document(p), at + [Key("requests"), Key(name)]) == ShownAmount(r.requests, name)
      && Read(Document(p), at + [Key("limits"), Key(name)]) == ShownAmount(r.limits, name)
  {
    var r := p.spec.containers[i].resources;
    var at := [Key("spec"), Key("containers"), At(i), Key("resources")];
    assert at + [Key("requests"), Key(name)] ==
      [Key("spec"), Key("containers"), At(i), Key("resources"), Key("requests")] + [Key(name)];
    assert at + [Key("limits"), Key(name)] ==
      [Key("spec"), Key("containers"), At(i), Key("resources"), Key("limits")] + [Key(name)];
    ReadResources(p, i, "requests", [Key(name)]);
    ReadResources(p, i, "limits", [Key(name)]);
    if r.requests.Some? {
      QuantityShown(r.requests.value, name);
    }
    if r.limits.Some? {
      QuantityShown(r.limits.value, name);
    }
  }

  lemma QuantityShown(m: map<string, int>, name: string)
    ensures Read(QuantityMap(m), [Key(name)]) == ShownAmount(Some(m), name)
  {
    ReadFirst(QuantityMap(m), Key(name), []);
    assert [Key(name)] + [] == [Key(name)];
  }

  function ShownAmount(m: Option<map<string, int>>, name: string): Option<Json> {
    if m.Some? && name in m.value then Some(Number(m.value[name])) else None
  }

  // ---- the patched pod ------------------------------------------------------

  // The mark
  lemma MarkShown(pod: Pod, plan: Plan)
    ensures Read(Document(Target(pod, plan)),
                 [Key("metadata"), Key("annotations"), Key("dra.llm-d.io/mutated")]) == Some(String("true"))
  {
    var q := Target(pod, plan);
    var mark := Key("dra.llm-d.io/mutated");
    assert [Key("metadata"), Key("annotations"), mark] == [Key("metadata")] + ([Key("annotations")] + ([mark] + []));
    ReadFirst(Document(q), Key("metadata"), [Key("annotations")] + ([mark] + []));
    ReadFirst(MetaJson(q.meta), Key("annotations"), [mark] + []);
    ReadFirst(StringMap(q.meta.annotations.value), mark, []);
  }

  // The operands of the pin
  lemma RequirementShown(r: Requirement)
    ensures Read(RequirementJson(r), [Key("key")]) == Some(String(r.key))
    ensures r.op == In ==> Read(RequirementJson(r), [Key("operator")]) == Some(String("In"))
    ensures forall i :: 0 <= i < |r.values| ==>
      Read(RequirementJson(r), [Key("values"), At(i)]) == Some(String(r.values[i]))
  {
    ReadFirst(RequirementJson(r), Key("key"), []);
    ReadFirst(RequirementJson(r), Key("operator"), []);
    assert [Key("key")] + [] == [Key("key")] && [Key("operator")] + [] == [Key("operator")];
    forall i | 0 <= i < |r.values|
      ensures Read(RequirementJson(r), [Key("values"), At(i)]) == Some(String(r.values[i]))
    {
      assert [Key("values"), At(i)] == [Key("values")] + ([At(i)] + []);
      ReadFirst(RequirementJson(r), Key("values"), [At(i)] + []);
      ReadFirst(Strings(r.values), At(i), []);
    }
  }

  function TermsPath(): seq<Step> {
    [Key("spec"), Key("affinity"), Key("nodeAffinity"), Key(REQUIRED), Key("nodeSelectorTerms")]
  }

  lemma ReadTerm(p: Pod, i: nat, k: nat, rest: seq<Step>)
    requires RequiredTerms(p.spec.affinity).Some? && i < |RequiredTerms(p.spec.affinity).value|
    requires RequiredTerms(p.spec.affinity).value[i].fields.Some?
    requires k < |RequiredTerms(p.spec.affinity).value[i].fields.value|
    ensures Read(Document(p), TermsPath() + ([At(i), Key("matchFields"), At(k)] + rest)) ==
      Read(RequirementJson(RequiredTerms(p.spec.affinity).value[i].fields.value[k]), rest)
  {
    var a := p.spec.affinity.value;
    var terms := a.node.value.required.value;
    var fields := terms[i].fields.value;
    var r5 := [At(i)] + ([Key("matchFields")] + ([At(k)] + rest));
    assert TermsPath() + ([At(i), Key("matchFields"), At(k)] + rest) ==
      [Key("spec")] + ([Key("affinity")] + ([Key("nodeAffinity")] + ([Key(REQUIRED)] +
                                                                     ([Key("nodeSelectorTerms")] + r5))));
    ReadSpec(p, "affinity", [Key("nodeAffinity")] + ([Key(REQUIRED)] + ([Key("nodeSelectorTerms")] + r5)));
    ReadFirst(AffinityJson(a), Key("nodeAffinity"), [Key(REQUIRED)] + ([Key("nodeSelectorTerms")] + r5));
    ReadFirst(NodeAffinityJson(a.node.value), Key(REQUIRED), [Key("nodeSelectorTerms")] + r5);
    ReadFirst(NodeSelectorJson(terms), Key("nodeSelectorTerms"), r5);
    ReadFirst(Array(TermItems(terms)), At(i), [Key("matchFields")] + ([At(k)] + rest));
    ReadFirst(TermJson(terms[i]), Key("matchFields"), [At(k)] + rest);
    ReadFirst(RequirementsJson(fields), At(k), rest);
  }

  lemma PinIsLast(pod: Pod, plan: Plan, i: nat)
    requires var terms := RequiredTerms(pod.spec.affinity); i < if terms.None? then 1 else |terms.value|
    ensures var before, after := RequiredTerms(pod.spec.affinity), RequiredTerms(Target(pod, plan).spec.affinity);
      var last := if before.None? || before.value[i].fields.None? then 0 else |before.value[i].fields.value|;
      && after.Some? && i < |after.value| && after.value[i].fields.Some? && last < |after.value[i].fields.value|
      && after.value[i].fields.value[last] == PinField(plan.node)
  {
    BatchesEffect(pod, plan.batches);
  }

  // Every required term of the patched pod ends, in its matchFields, with the
  // requirement that the node's name be the one of the plan; there is one at
  // least.
  lemma PinShown(pod: Pod, plan: Plan, i: nat)
    requires var terms := RequiredTerms(pod.spec.affinity); i < if terms.None? then 1 else |terms.value|
    ensures var before := RequiredTerms(pod.spec.affinity);
      var last := if before.None? || before.value[i].fields.None? then 0 else |before.value[i].fields.value|;
      var at := TermsPath() + [At(i), Key("matchFields"), At(last)];
      var doc := Document(Target(pod, plan));
      && Read(doc, at + [Key("key")]) == Some(String("metadata.name"))
      && Read(doc, at + [Key("operator")]) == Some(String("In"))
      && Read(doc, at + [Key("values"), At(0)]) == Some(String(plan.node))
      && Read(doc, at + [Key("values"), At(1)]) == None
  {
    var q := Target(pod, plan);
    var before := RequiredTerms(pod.spec.affinity);
    var last := if before.None? || before.value[i].fields.None? then 0 else |before.value[i].fields.value|;
    var pin := PinField(plan.node);
    PinIsLast(pod, plan, i);
    forall rest
      ensures Read(Document(q), TermsPath() + [At(i), Key("matchFields"), At(last)] + rest) ==
        Read(RequirementJson(pin), rest)
    {
      var at := [At(i), Key("matchFields"), At(last)];
      assert TermsPath() + at + rest == TermsPath() + (at + rest);
      ReadTerm(q, i, last, rest);
    }
    RequirementShown(pin);
    assert [Key("values"), At(1)] == [Key("values")] + ([At(1)] + []);
    ReadFirst(RequirementJson(pin), Key("values"), [At(1)] + []);
    ReadFirst(Strings([plan.node]), At(1), []);
  }
}
