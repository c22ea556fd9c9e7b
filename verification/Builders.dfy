// The functions that turn one intended
// change of a pod into JSON Patch
// operations. Each is proved by what its
// operations do to the document of the
// pod as it stands when they are applied.
module Builders {
  import opened Basics
  import opened Json
  import opened Pods
  import opened PodJson
  import opened Constraints
  import opened Sorting
  import opened Words
  import Text

  // ---- intended changes -----------------------------------------------------

  function Less(m: Option<map<string, int>>, name: string): Option<map<string, int>> {
    if m.None? then None else Some(m.value - {name})
  }

  function Strip(r: Resources, name: string): Resources {
    Resources(Less(r.requests, name), Less(r.limits, name), r.claims)
  }

  // The resource is taken off the listed containers, one after the other.
  function StripAll(p: Pod, containers: seq<nat>, name: string): (q: Pod)
    requires forall k :: 0 <= k < |containers| ==> containers[k] < |p.spec.containers|
    ensures |q.spec.containers| == |p.spec.containers|
  {
    if containers == [] then p
    else
      var n := |containers| - 1;
      var before := StripAll(p, containers[..n], name);
      WithResources(before, containers[n], Strip(before.spec.containers[containers[n]].resources, name))
  }

  function ListOf<T>(xs: Option<seq<T>>): seq<T> {
    if xs.None? then [] else xs.value
  }

  function AddClaims(p: Pod, claims: seq<PodClaim>): Pod {
    p.(spec := p.spec.(resourceClaims := Some(ListOf(p.spec.resourceClaims) + claims)))
  }

  function MoreRefs(r: Resources, refs: seq<ClaimRef>): Resources {
    r.(claims := Some(ListOf(r.claims) + refs))
  }

  function AddRefs(p: Pod, i: nat, refs: seq<ClaimRef>): Pod
    requires i < |p.spec.containers|
  {
    WithResources(p, i, MoreRefs(p.spec.containers[i].resources, refs))
  }

  function PinField(node: string): Requirement {
    Requirement("metadata.name", In, [node])
  }

  function PinTerm(t: Term, node: string): Term {
    t.(fields := Some(Listed(t.fields) + [PinField(node)]))
  }

  function PinTerms(ts: seq<Term>, node: string): (pinned: seq<Term>)
    ensures |pinned| == |ts|
    ensures forall i :: 0 <= i < |ts| ==> pinned[i] == PinTerm(ts[i], node)
  {
    seq(|ts|, i requires 0 <= i < |ts| => PinTerm(ts[i], node))
  }

  function OnlyPin(node: string): seq<Term> {
    [Term(None, Some([PinField(node)]))]
  }

  // Terms are alternatives, so every term is narrowed to the node.
  function PinAffinity(a: Option<Affinity>, node: string): Affinity {
    if a.None? then Affinity(Some(NodeAffinity(Some(OnlyPin(node)), map[])), None, None)
    else if a.value.node.None? then a.value.(node := Some(NodeAffinity(Some(OnlyPin(node)), map[])))
    else if a.value.node.value.required.None? then
      a.value.(node := Some(a.value.node.value.(required := Some(OnlyPin(node)))))
    else
      var terms := PinTerms(a.value.node.value.required.value, node);
      a.value.(node := Some(a.value.node.value.(required := Some(terms))))
  }

  function Pin(p: Pod, node: string): Pod {
    p.(spec := p.spec.(affinity := Some(PinAffinity(p.spec.affinity, node))))
  }

  // Every existing required term already has a matchFields array.
  predicate FieldsPresent(a: Option<Affinity>) {
    RequiredTerms(a).Some? ==> forall i :: 0 <= i < |RequiredTerms(a).value| ==> RequiredTerms(a).value[i].fields.Some?
  }

  const MUTATED := "dra.llm-d.io/mutated"

  function MarkMutated(p: Pod): Pod {
    p.(meta := p.meta.(annotations :=
      Some((if p.meta.annotations.None? then map[] else p.meta.annotations.value)[MUTATED := "true"])))
  }

  // ---- pointers -------------------------------------------------------------

  function ResourcesPath(container: nat, leaf: seq<string>): string {
    Pointer(["spec", "containers", Text.Decimal(container), "resources"] + leaf)
  }

  lemma PlainDecimal(n: nat)
    ensures Plain(Text.Decimal(n))
  {
  }

  // Each segment spells the token it stands for.
  ghost predicate Spells(segments: seq<string>, tokens: seq<string>) {
    && |segments| == |tokens|
    && forall i :: 0 <= i < |segments| ==> '/' !in segments[i] && Unescape(segments[i]) == tokens[i]
  }

  lemma SpelledPointer(segments: seq<string>, tokens: seq<string>)
    requires Spells(segments, tokens)
    ensures Tokens(Pointer(segments)) == Some(tokens)
  {
    TokensOfPointer(segments);
    assert UnescapeAll(segments) == tokens;
  }

  lemma PlainSegments(segments: seq<string>)
    requires forall i :: 0 <= i < |segments| ==> Plain(segments[i])
    ensures Spells(segments, segments)
  {
    forall i | 0 <= i < |segments|
      ensures '/' !in segments[i] && Unescape(segments[i]) == segments[i]
    {
      assert Plain(segments[i]);
      UnescapePlain(segments[i]);
    }
  }

  lemma PlainPointer(segments: seq<string>)
    requires forall i :: 0 <= i < |segments| ==> Plain(segments[i])
    ensures Tokens(Pointer(segments)) == Some(segments)
  {
    PlainSegments(segments);
    SpelledPointer(segments, segments);
  }

  lemma ResourcesTokens(container: nat, leaf: seq<string>, tokens: seq<string>)
    requires Spells(leaf, tokens)
    ensures Tokens(ResourcesPath(container, leaf)) ==
      Some(["spec"] + (["containers"] + ([Text.Decimal(container)] + (["resources"] + tokens))))
  {
    var stem := ["spec", "containers", Text.Decimal(container), "resources"];
    PlainWords();
    PlainDecimal(container);
    PlainSegments(stem);
    SpelledPointer(stem + leaf, stem + tokens);
    Nest("spec", "containers", Text.Decimal(container), "resources", tokens);
  }

  lemma Nest(a: string, b: string, c: string, d: string, tokens: seq<string>)
    ensures [a, b, c, d] + tokens == [a] + ([b] + ([c] + ([d] + tokens)))
  {
  }

  lemma EscapedLeaf(list: string, name: string)
    requires Plain(list)
    ensures Spells([list, Escape(name)], [list] + [name])
  {
    UnescapePlain(list);
    EscapeRoundTrip(name);
  }

  // ---- builders -------------------------------------------------------------

  // cur stands for the pod as patched so far; only its parts that the builder
  // is about to change need to agree with the pod it looks at.
  ghost predicate SameQuantities(pod: Pod, cur: Pod, i: nat, name: string)
    requires i < |pod.spec.containers| && i < |cur.spec.containers|
  {
    var r, s := pod.spec.containers[i].resources, cur.spec.containers[i].resources;
    && s.requests.Some? && name in s.requests.value
    && (r.limits.Some? && name in r.limits.value <==> s.limits.Some? && name in s.limits.value)
  }

  method BuildResourceRemovalPatches(pod: Pod, containers: seq<nat>, name: string, ghost cur: Pod)
    returns (patches: seq<Op>)
    requires |cur.spec.containers| == |pod.spec.containers| && NoRepeats(containers)
    requires forall k :: 0 <= k < |containers| ==> containers[k] < |pod.spec.containers|
    requires forall k :: 0 <= k < |containers| ==> SameQuantities(pod, cur, containers[k], name)
    ensures ApplyAll(Document(cur), patches) == Some(Document(StripAll(cur, containers, name)))
  {
    patches := [];
    for k := 0 to |containers|
      invariant ApplyAll(Document(cur), patches) == Some(Document(StripAll(cur, containers[..k], name)))
    {
      var i := containers[k];
      var escaped := EscapeJSONPointer(name);
      var step := [Remove(ResourcesPath(i, ["requests", escaped]))];
      var limits := pod.spec.containers[i].resources.limits;
      if limits.Some? && name in limits.value {
        step := step + [Remove(ResourcesPath(i, ["limits", escaped]))];
      }
      ghost var now := StripAll(cur, containers[..k], name);
      StripAllElsewhere(cur, containers[..k], name, i);
      StripStep(now, i, name, step);
      ApplyAllConcat(Document(cur), patches, step);
      assert containers[..k + 1][..k] == containers[..k];
      patches := patches + step;
    }
    assert containers[..|containers|] == containers;
  }

  lemma {:induction false} StripAllElsewhere(p: Pod, containers: seq<nat>, name: string, i: nat)
    requires forall k :: 0 <= k < |containers| ==> containers[k] < |p.spec.containers|
    requires i < |p.spec.containers| && i !in containers
    ensures StripAll(p, containers, name).spec.containers[i] == p.spec.containers[i]
  {
    if containers != [] {
      StripAllElsewhere(p, containers[..|containers| - 1], name, i);
    }
  }

  // One container: its request goes, and its limit if it has one.
  lemma StripStep(p: Pod, i: nat, name: string, step: seq<Op>)
    requires i < |p.spec.containers|
    requires var r := p.spec.containers[i].resources;
      && r.requests.Some? && name in r.requests.value
      && step == [Remove(ResourcesPath(i, ["requests", Escape(name)]))] +
        (if r.limits.Some? && name in r.limits.value then [Remove(ResourcesPath(i, ["limits", Escape(name)]))] else [])
    ensures ApplyAll(Document(p), step) ==
            Some(Document(WithResources(p, i, Strip(p.spec.containers[i].resources, name))))
  {
    var r := p.spec.containers[i].resources;
    var r1 := r.(requests := Less(r.requests, name));
    var p1 := WithResources(p, i, r1);
    RequestGoes(p, i, name);
    if r.limits.Some? && name in r.limits.value {
      LimitGoes(p1, i, name);
      assert step == [step[0]] + [step[1]];
      ApplyAllConcat(Document(p), [step[0]], [step[1]]);
      ResourcesTwice(p, i, r1, Strip(r, name));
    } else {
      assert step == [Remove(ResourcesPath(i, ["requests", Escape(name)]))];
      if r.limits.Some? {
        assert r.limits.value - {name} == r.limits.value;
      }
      assert r1 == Strip(r, name);
    }
  }

  lemma ResourcesTwice(p: Pod, i: nat, r: Resources, s: Resources)
    requires i < |p.spec.containers|
    ensures WithResources(WithResources(p, i, r), i, s) == WithResources(p, i, s)
  {
  }

  lemma RequestGoes(p: Pod, i: nat, name: string)
    requires i < |p.spec.containers|
    requires p.spec.containers[i].resources.requests.Some? && name in p.spec.containers[i].resources.requests.value
    ensures var r := p.spec.containers[i].resources;
      ApplyAll(Document(p), [Remove(ResourcesPath(i, ["requests", Escape(name)]))]) ==
        Some(Document(WithResources(p, i, r.(requests := Less(r.requests, name)))))
  {
    var r := p.spec.containers[i].resources;
    PlainWords();
    EscapedLeaf("requests", name);
    ResourcesTokens(i, ["requests", Escape(name)], ["requests"] + [name]);
    DropRequest(r, name);
    EditResources(p, i, ["requests"] + [name], Delete, r.(requests := Less(r.requests, name)));
  }

  lemma LimitGoes(p: Pod, i: nat, name: string)
    requires i < |p.spec.containers|
    requires p.spec.containers[i].resources.limits.Some? && name in p.spec.containers[i].resources.limits.value
    ensures var r := p.spec.containers[i].resources;
      ApplyAll(Document(p), [Remove(ResourcesPath(i, ["limits", Escape(name)]))]) ==
        Some(Document(WithResources(p, i, r.(limits := Less(r.limits, name)))))
  {
    var r := p.spec.containers[i].resources;
    PlainWords();
    EscapedLeaf("limits", name);
    ResourcesTokens(i, ["limits", Escape(name)], ["limits"] + [name]);
    DropLimit(r, name);
    EditResources(p, i, ["limits"] + [name], Delete, r.(limits := Less(r.limits, name)));
  }

  method BuildPodClaimPatches(pod: Pod, claims: seq<PodClaim>, firstBatch: bool, ghost cur: Pod)
    returns (patches: seq<Op>)
    requires cur.spec.resourceClaims.None? <==> pod.spec.resourceClaims.None? && firstBatch
    ensures ApplyAll(Document(cur), patches) == Some(Document(AddClaims(cur, claims)))
  {
    if pod.spec.resourceClaims.None? && firstBatch {
      patches := [Add(Pointer(["spec", "resourceClaims"]), Array(PodClaimItems(claims)))];
      StartClaimsStep(cur, claims, patches[0]);
      return;
    }
    patches := [];
    AddNoClaims(cur);
    for k := 0 to |claims|
      invariant ApplyAll(Document(cur), patches) == Some(Document(AddClaims(cur, claims[..k])))
    {
      var op := Add(Pointer(["spec", "resourceClaims", "-"]), PodClaimJson(claims[k]));
      AppendClaimStep(AddClaims(cur, claims[..k]), claims[k], op);
      ApplyAllConcat(Document(cur), patches, [op]);
      AddClaimsNext(cur, claims, k);
      patches := patches + [op];
    }
    assert claims[..|claims|] == claims;
  }

  lemma StartClaimsStep(p: Pod, claims: seq<PodClaim>, op: Op)
    requires p.spec.resourceClaims.None?
    requires op == Add(Pointer(["spec", "resourceClaims"]), Array(PodClaimItems(claims)))
    ensures ApplyAll(Document(p), [op]) == Some(Document(AddClaims(p, claims)))
  {
    PlainWords();
    PlainMembers();
    PlainPointer(["spec", "resourceClaims"]);
    assert ["spec", "resourceClaims"] == ["spec"] + ["resourceClaims"];
    assert [] + claims == claims;
    StartClaims(p.spec, claims);
    EditSpec(p, ["resourceClaims"], Insert(Array(PodClaimItems(claims))), AddClaims(p, claims).spec);
  }

  lemma AddNoClaims(p: Pod)
    requires p.spec.resourceClaims.Some?
    ensures AddClaims(p, []) == p
  {
    assert p.spec.resourceClaims.value + [] == p.spec.resourceClaims.value;
  }

  lemma AddClaimsTwice(p: Pod, a: seq<PodClaim>, b: seq<PodClaim>)
    ensures AddClaims(AddClaims(p, a), b) == AddClaims(p, a + b)
  {
    assert ListOf(p.spec.resourceClaims) + a + b == ListOf(p.spec.resourceClaims) + (a + b);
  }

  lemma AddClaimsNext(p: Pod, claims: seq<PodClaim>, k: nat)
    requires k < |claims|
    ensures AddClaims(AddClaims(p, claims[..k]), [claims[k]]) == AddClaims(p, claims[..k + 1])
  {
    AddClaimsTwice(p, claims[..k], [claims[k]]);
    assert claims[..k + 1] == claims[..k] + [claims[k]];
  }

  lemma AppendClaimStep(p: Pod, claim: PodClaim, op: Op)
    requires p.spec.resourceClaims.Some?
    requires op == Add(Pointer(["spec", "resourceClaims", "-"]), PodClaimJson(claim))
    ensures ApplyAll(Document(p), [op]) == Some(Document(AddClaims(p, [claim])))
  {
    PlainWords();
    PlainMembers();
    PlainPointer(["spec", "resourceClaims", "-"]);
    assert ["spec", "resourceClaims", "-"] == ["spec"] + (["resourceClaims"] + ["-"]);
    AppendClaim(p.spec, claim);
    EditSpec(p, ["resourceClaims"] + ["-"], Insert(PodClaimJson(claim)), AddClaims(p, [claim]).spec);
  }

  method BuildContainerClaimRefPatches(pod: Pod, i: nat, refs: seq<ClaimRef>, firstBatch: bool, ghost cur: Pod)
    returns (patches: seq<Op>)
    requires i < |pod.spec.containers| == |cur.spec.containers|
    requires cur.spec.containers[i].resources.claims.None? <==>
      pod.spec.containers[i].resources.claims.None? && firstBatch
    ensures ApplyAll(Document(cur), patches) == Some(Document(AddRefs(cur, i, refs)))
  {
    if pod.spec.containers[i].resources.claims.None? && firstBatch {
      patches := [Add(ResourcesPath(i, ["claims"]), Array(ClaimRefItems(refs)))];
      StartRefsStep(cur, i, refs, patches[0]);
      return;
    }
    patches := [];
    AddNoRefs(cur, i);
    for k := 0 to |refs|
      invariant ApplyAll(Document(cur), patches) == Some(Document(AddRefs(cur, i, refs[..k])))
    {
      var op := Add(ResourcesPath(i, ["claims", "-"]), ClaimRefJson(refs[k]));
      AppendRefStep(AddRefs(cur, i, refs[..k]), i, refs[k], op);
      ApplyAllConcat(Document(cur), patches, [op]);
      AddRefsTwice(cur, i, refs[..k], [refs[k]]);
      assert refs[..k + 1] == refs[..k] + [refs[k]];
      patches := patches + [op];
    }
    assert refs[..|refs|] == refs;
  }

  lemma AddNoRefs(p: Pod, i: nat)
    requires i < |p.spec.containers| && p.spec.containers[i].resources.claims.Some?
    ensures AddRefs(p, i, []) == p
  {
    var r := p.spec.containers[i].resources;
    assert r.claims.value + [] == r.claims.value;
    assert p.spec.containers[i := p.spec.containers[i].(resources := r)] == p.spec.containers;
  }

  lemma AddRefsTwice(p: Pod, i: nat, a: seq<ClaimRef>, b: seq<ClaimRef>)
    requires i < |p.spec.containers|
    ensures AddRefs(AddRefs(p, i, a), i, b) == AddRefs(p, i, a + b)
  {
    var r := p.spec.containers[i].resources;
    assert ListOf(r.claims) + a + b == ListOf(r.claims) + (a + b);
  }

  lemma StartRefsStep(p: Pod, i: nat, refs: seq<ClaimRef>, op: Op)
    requires i < |p.spec.containers| && p.spec.containers[i].resources.claims.None?
    requires op == Add(ResourcesPath(i, ["claims"]), Array(ClaimRefItems(refs)))
    ensures ApplyAll(Document(p), [op]) == Some(Document(AddRefs(p, i, refs)))
  {
    PlainWords();
    PlainSegments(["claims"]);
    ResourcesTokens(i, ["claims"], ["claims"]);
    var r := p.spec.containers[i].resources;
    StartRefs(r, refs);
    assert [] + refs == refs;
    assert MoreRefs(r, refs) == r.(claims := Some(refs));
    EditResources(p, i, ["claims"], Insert(Array(ClaimRefItems(refs))), MoreRefs(r, refs));
  }

  lemma AppendRefStep(p: Pod, i: nat, ref: ClaimRef, op: Op)
    requires i < |p.spec.containers| && p.spec.containers[i].resources.claims.Some?
    requires op == Add(ResourcesPath(i, ["claims", "-"]), ClaimRefJson(ref))
    ensures ApplyAll(Document(p), [op]) == Some(Document(AddRefs(p, i, [ref])))
  {
    PlainWords();
    PlainSegments(["claims", "-"]);
    ResourcesTokens(i, ["claims", "-"], ["claims"] + ["-"]);
    var r := p.spec.containers[i].resources;
    AppendRef(r, ref);
    EditResources(p, i, ["claims"] + ["-"], Insert(ClaimRefJson(ref)), MoreRefs(r, [ref]));
  }

  // ---- node pinning ---------------------------------------------------------

  // Applies exactly when every existing required term has a matchFields array;
  // otherwise the first term without one makes the whole patch fail.
  method BuildNodeAffinityPatch(pod: Pod, node: string, ghost cur: Pod) returns (patches: seq<Op>)
    requires cur.spec.affinity == pod.spec.affinity
    ensures ApplyAll(Document(cur), patches) ==
      if FieldsPresent(pod.spec.affinity) then Some(Document(Pin(cur, node))) else None
  {
    var affinity := pod.spec.affinity;
    if affinity.None? {
      patches := [Add(Pointer(["spec", "affinity"]), AffinityJson(PinAffinity(None, node)))];
      PinMissingAffinity(cur, node, patches[0]);
    } else if affinity.value.node.None? {
      patches := [Add(Pointer(["spec", "affinity", "nodeAffinity"]),
                      NodeAffinityJson(NodeAffinity(Some(OnlyPin(node)), map[])))];
      PinMissingNodeAffinity(cur, node, patches[0]);
    } else if affinity.value.node.value.required.None? {
      patches := [Add(Pointer(["spec", "affinity", "nodeAffinity", REQUIRED]), NodeSelectorJson(OnlyPin(node)))];
      PinMissingRequired(cur, node, patches[0]);
    } else {
      patches := PinEachTerm(affinity.value.node.value.required.value, node, cur);
    }
  }

  predicate HaveFields(terms: seq<Term>, n: nat) {
    forall k :: 0 <= k < n && k < |terms| ==> terms[k].fields.Some?
  }

  method PinEachTerm(terms: seq<Term>, node: string, ghost cur: Pod) returns (patches: seq<Op>)
    requires RequiredTerms(cur.spec.affinity) == Some(terms)
    ensures ApplyAll(Document(cur), patches) ==
      if FieldsPresent(cur.spec.affinity) then Some(Document(Pin(cur, node))) else None
  {
    patches := [];
    ghost var ready := true;
    PinFirstEnds(terms, node);
    assert WithTerms(cur, terms) == cur;
    for i := 0 to |terms|
      invariant ready <==> HaveFields(terms, i)
      invariant ApplyAll(Document(cur), patches) ==
        if ready then Some(Document(WithTerms(cur, PinFirst(terms, node, i)))) else None
    {
      var op := Add(TermPath(i), RequirementJson(PinField(node)));
      assert HaveFields(terms, i + 1) <==> HaveFields(terms, i) && terms[i].fields.Some?;
      PinNext(cur, terms, node, i, patches, ready, op);
      ready := ready && terms[i].fields.Some?;
      patches := patches + [op];
    }
  }

  lemma PinNext(cur: Pod, terms: seq<Term>, node: string, i: nat, patches: seq<Op>, ready: bool, op: Op)
    requires RequiredTerms(cur.spec.affinity) == Some(terms) && i < |terms|
    requires ApplyAll(Document(cur), patches) ==
      if ready then Some(Document(WithTerms(cur, PinFirst(terms, node, i)))) else None
    requires op == Add(TermPath(i), RequirementJson(PinField(node)))
    ensures ApplyAll(Document(cur), patches + [op]) ==
      if ready && terms[i].fields.Some? then Some(Document(WithTerms(cur, PinFirst(terms, node, i + 1)))) else None
  {
    ApplyAllConcat(Document(cur), patches, [op]);
    if ready {
      PinFirstStep(terms, node, i);
      PinOneTerm(WithTerms(cur, PinFirst(terms, node, i)), i, PinField(node), op);
    }
  }

  function TermPath(i: nat): string {
    Pointer(["spec", "affinity", "nodeAffinity", REQUIRED, "nodeSelectorTerms", Text.Decimal(i), "matchFields", "-"])
  }

  // The first n terms narrowed
  function PinFirst(ts: seq<Term>, node: string, n: nat): seq<Term>
    requires n <= |ts|
  {
    PinTerms(ts[..n], node) + ts[n..]
  }

  lemma PinFirstEnds(ts: seq<Term>, node: string)
    ensures PinFirst(ts, node, 0) == ts && PinFirst(ts, node, |ts|) == PinTerms(ts, node)
  {
    assert ts[..|ts|] == ts;
  }

  lemma PinFirstStep(ts: seq<Term>, node: string, i: nat)
    requires i < |ts|
    ensures PinFirst(ts, node, i)[i] == ts[i]
    ensures PinFirst(ts, node, i)[i := PinTerm(ts[i], node)] == PinFirst(ts, node, i + 1)
  {
  }

  function WithTerms(p: Pod, ts: seq<Term>): Pod
    requires p.spec.affinity.Some? && p.spec.affinity.value.node.Some?
  {
    var a := p.spec.affinity.value;
    p.(spec := p.spec.(affinity := Some(a.(node := Some(a.node.value.(required := Some(ts)))))))
  }

  lemma PinMissingAffinity(p: Pod, node: string, op: Op)
    requires p.spec.affinity.None?
    requires op == Add(Pointer(["spec", "affinity"]), AffinityJson(PinAffinity(None, node)))
    ensures ApplyAll(Document(p), [op]) == Some(Document(Pin(p, node)))
  {
    PlainWords();
    PlainMembers();
    PlainPointer(["spec", "affinity"]);
    assert ["spec", "affinity"] == ["spec"] + ["affinity"];
    SetAffinity(p.spec, PinAffinity(None, node));
    EditSpec(p, ["affinity"], Insert(AffinityJson(PinAffinity(None, node))), Pin(p, node).spec);
  }

  lemma PinMissingNodeAffinity(p: Pod, node: string, op: Op)
    requires p.spec.affinity.Some? && p.spec.affinity.value.node.None?
    requires op == Add(Pointer(["spec", "affinity", "nodeAffinity"]),
                       NodeAffinityJson(NodeAffinity(Some(OnlyPin(node)), map[])))
    ensures ApplyAll(Document(p), [op]) == Some(Document(Pin(p, node)))
  {
    var value := NodeAffinity(Some(OnlyPin(node)), map[]);
    PlainWords();
    PlainMembers();
    PlainPointer(["spec", "affinity", "nodeAffinity"]);
    assert ["spec", "affinity", "nodeAffinity"] == ["spec"] + (["affinity"] + ["nodeAffinity"]);
    SetNodeAffinity(p.spec.affinity.value, value);
    EditAffinity(p.spec, ["nodeAffinity"], Insert(NodeAffinityJson(value)), PinAffinity(p.spec.affinity, node));
    EditSpec(p, ["affinity"] + ["nodeAffinity"], Insert(NodeAffinityJson(value)), Pin(p, node).spec);
  }

  lemma RequiredTokens()
    ensures Tokens(Pointer(["spec", "affinity", "nodeAffinity", REQUIRED])) ==
      Some(["spec"] + (["affinity"] + (["nodeAffinity"] + [REQUIRED])))
  {
    var path := ["spec", "affinity", "nodeAffinity", REQUIRED];
    PlainWords();
    PlainMembers();
    PlainRequired();
    PlainPointer(path);
    assert path == ["spec"] + (["affinity"] + (["nodeAffinity"] + [REQUIRED]));
  }

  lemma PinMissingRequired(p: Pod, node: string, op: Op)
    requires p.spec.affinity.Some? && p.spec.affinity.value.node.Some?
    requires p.spec.affinity.value.node.value.required.None?
    requires op == Add(Pointer(["spec", "affinity", "nodeAffinity", REQUIRED]), NodeSelectorJson(OnlyPin(node)))
    ensures ApplyAll(Document(p), [op]) == Some(Document(Pin(p, node)))
  {
    RequiredTokens();
    var a := p.spec.affinity.value;
    var edit := Insert(NodeSelectorJson(OnlyPin(node)));
    SetRequired(a.node.value, OnlyPin(node));
    EditNodeAffinity(a, [REQUIRED], edit, a.node.value.(required := Some(OnlyPin(node))));
    EditAffinity(p.spec, ["nodeAffinity"] + [REQUIRED], edit, PinAffinity(p.spec.affinity, node));
    EditSpec(p, ["affinity"] + (["nodeAffinity"] + [REQUIRED]), edit, Pin(p, node).spec);
  }

  lemma TermTokens(i: nat)
    ensures Tokens(TermPath(i)) == Some(["spec"] + (["affinity"] + (["nodeAffinity"] +
      ([REQUIRED] + (["nodeSelectorTerms"] + ([Text.Decimal(i)] + ["matchFields", "-"]))))))
  {
    var d := Text.Decimal(i);
    var path := ["spec", "affinity", "nodeAffinity", REQUIRED, "nodeSelectorTerms", d, "matchFields", "-"];
    PlainWords();
    PlainMembers();
    PlainRequired();
    PlainDecimal(i);
    PlainPointer(path);
    assert path == ["spec"] + (["affinity"] + (["nodeAffinity"] + ([REQUIRED] + (["nodeSelectorTerms"] +
      ([d] + ["matchFields", "-"])))));
  }

  lemma PinOneTerm(p: Pod, i: nat, f: Requirement, op: Op)
    requires p.spec.affinity.Some? && p.spec.affinity.value.node.Some?
    requires p.spec.affinity.value.node.value.required.Some?
    requires i < |p.spec.affinity.value.node.value.required.value|
    requires op == Add(TermPath(i), RequirementJson(f))
    ensures var ts := p.spec.affinity.value.node.value.required.value;
      ApplyAll(Document(p), [op]) ==
        if ts[i].fields.None? then None
        else Some(Document(WithTerms(p, ts[i := ts[i].(fields := Some(ts[i].fields.value + [f]))])))
  {
    var a := p.spec.affinity.value;
    var n := a.node.value;
    var ts := n.required.value;
    var edit := Insert(RequirementJson(f));
    var tail := [REQUIRED] + (["nodeSelectorTerms"] + ([Text.Decimal(i)] + ["matchFields", "-"]));
    TermTokens(i);
    AppendField(n, i, f);
    if ts[i].fields.Some? {
      var n' := n.(required := Some(ts[i := ts[i].(fields := Some(ts[i].fields.value + [f]))]));
      EditNodeAffinity(a, tail, edit, n');
      EditAffinity(p.spec, ["nodeAffinity"] + tail, edit, a.(node := Some(n')));
      EditSpec(p, ["affinity"] + (["nodeAffinity"] + tail), edit, p.spec.(affinity := Some(a.(node := Some(n')))));
    } else {
      ChangeField(AffinityJson(a).fields, "nodeAffinity", tail, edit);
      ChangeField(SpecJson(p.spec).fields, "affinity", ["nodeAffinity"] + tail, edit);
    }
  }

  // ---- the annotation -------------------------------------------------------

  method BuildMutatedAnnotationPatch(pod: Pod, ghost cur: Pod) returns (patches: seq<Op>)
    requires cur.meta == pod.meta
    ensures ApplyAll(Document(cur), patches) == Some(Document(MarkMutated(cur)))
  {
    if pod.meta.annotations.None? {
      patches := [Add(Pointer(["metadata", "annotations"]), StringMap(map[MUTATED := "true"]))];
      MarkFresh(cur, patches[0]);
    } else {
      var escaped := EscapeJSONPointer(MUTATED);
      patches := [Add(Pointer(["metadata", "annotations", escaped]), String("true"))];
      AnnotateStep(cur, MUTATED, "true", patches[0]);
    }
  }

  lemma MarkFresh(p: Pod, op: Op)
    requires p.meta.annotations.None?
    requires op == Add(Pointer(["metadata", "annotations"]), StringMap(map[MUTATED := "true"]))
    ensures ApplyAll(Document(p), [op]) == Some(Document(MarkMutated(p)))
  {
    PlainWords();
    PlainMembers();
    PlainPointer(["metadata", "annotations"]);
    assert ["metadata", "annotations"] == ["metadata"] + ["annotations"];
    StartAnnotations(p.meta, map[MUTATED := "true"]);
    EditMeta(p, ["annotations"], Insert(StringMap(map[MUTATED := "true"])), MarkMutated(p).meta);
  }

  lemma ThreeTokens(a: string, b: string, name: string)
    requires Plain(a) && Plain(b)
    ensures Tokens(Pointer([a, b, Escape(name)])) == Some([a] + ([b] + [name]))
  {
    UnescapePlain(a);
    UnescapePlain(b);
    EscapeRoundTrip(name);
    assert Spells([a, b, Escape(name)], [a, b, name]);
    SpelledPointer([a, b, Escape(name)], [a, b, name]);
    assert [a, b, name] == [a] + ([b] + [name]);
  }

  function Annotate(p: Pod, name: string, v: string): Pod
    requires p.meta.annotations.Some?
  {
    p.(meta := p.meta.(annotations := Some(p.meta.annotations.value[name := v])))
  }

  lemma AnnotateStep(p: Pod, name: string, v: string, op: Op)
    requires p.meta.annotations.Some?
    requires op == Add(Pointer(["metadata", "annotations", Escape(name)]), String(v))
    ensures ApplyAll(Document(p), [op]) == Some(Document(Annotate(p, name, v)))
  {
    PlainWords();
    PlainMembers();
    ThreeTokens("metadata", "annotations", name);
    AddAnnotation(p.meta, name, v);
    EditMeta(p, ["annotations"] + [name], Insert(String(v)), Annotate(p, name, v).meta);
  }
}
