// What a pod asks for: GPU-NIC pairs and
// intercepted extended resources, in the
// requests of its containers. Limits only
// confirm them.
module Requests {
  import opened Basics
  import opened Pods

  const GPU_NIC_PAIR := "dra.llm-d.io/gpu-nic-pair"

  predicate Asks(c: Container, name: string) {
    c.resources.requests.Some? && name in c.resources.requests.value
  }

  function Amount(c: Container, name: string): int {
    if Asks(c, name) then c.resources.requests.value[name] else 0
  }

  function Sum(cs: seq<Container>, name: string): int {
    if cs == [] then 0 else Sum(cs[..|cs| - 1], name) + Amount(cs[|cs| - 1], name)
  }

  // A container counts with what its requests say of the resource, and the sum
  // is that over all of them.
  lemma SumOfOne(c: Container, name: string)
    ensures Sum([c], name) ==
      if c.resources.requests.Some? && name in c.resources.requests.value then c.resources.requests.value[name] else 0
  {
    assert [c][..0] == [] && Sum([], name) == 0;
  }

  lemma {:induction false} SumJoins(a: seq<Container>, b: seq<Container>, name: string)
    ensures Sum(a + b, name) == Sum(a, name) + Sum(b, name)
  {
    if b == [] {
      assert a + b == a;
    } else {
      var n := |b| - 1;
      SumJoins(a, b[..n], name);
      assert (a + b)[..|a| + n] == a + b[..n];
    }
  }

  // Indices of the containers that name the resource in their requests
  function Asking(cs: seq<Container>, name: string): seq<nat> {
    if cs == [] then []
    else
      var n := |cs| - 1;
      if Asks(cs[n], name) then Asking(cs[..n], name) + [n] else Asking(cs[..n], name)
  }

  lemma {:induction false} AskingFacts(cs: seq<Container>, name: string)
    ensures var found := Asking(cs, name);
      && (forall k :: 0 <= k < |found| ==> found[k] < |cs| && Asks(cs[found[k]], name))
      && (forall k, l :: 0 <= k < l < |found| ==> found[k] < found[l])
      && (forall i :: 0 <= i < |cs| && Asks(cs[i], name) ==> i in found)
  {
    if cs != [] {
      AskingFacts(cs[..|cs| - 1], name);
    }
  }

  // extractGPUNICPairCount; limits only confirm what requests say
  method ExtractGPUNICPairCount(pod: Pod) returns (count: int, containers: seq<nat>)
    ensures count == Sum(pod.spec.containers, GPU_NIC_PAIR)
    ensures containers == Asking(pod.spec.containers, GPU_NIC_PAIR)
  {
    var cs := pod.spec.containers;
    count, containers := 0, [];
    for i := 0 to |cs|
      invariant count == Sum(cs[..i], GPU_NIC_PAIR)
      invariant containers == Asking(cs[..i], GPU_NIC_PAIR)
    {
      assert cs[..i + 1][..i] == cs[..i];
      if Asks(cs[i], GPU_NIC_PAIR) {
        count := count + cs[i].resources.requests.value[GPU_NIC_PAIR];
        containers := containers + [i];
      }
    }
    assert cs[..|cs|] == cs;
  }

  // ContainerResourceCount
  datatype Share = Share(container: nat, count: nat)

  // InterceptedResourceRequest
  datatype Intercepted = Intercepted(resource: string, cls: string, shares: seq<Share>)

  function Total(shares: seq<Share>): nat {
    if shares == [] then 0 else Total(shares[..|shares| - 1]) + shares[|shares| - 1].count
  }

  // The containers that ask for a positive amount, with that amount
  function SharesOf(cs: seq<Container>, name: string): seq<Share> {
    if cs == [] then []
    else
      var n := |cs| - 1;
      if Amount(cs[n], name) > 0 then SharesOf(cs[..n], name) + [Share(n, Amount(cs[n], name))]
      else SharesOf(cs[..n], name)
  }

  lemma {:induction false} SharesFacts(cs: seq<Container>, name: string)
    ensures var shares := SharesOf(cs, name);
      && (forall k :: 0 <= k < |shares| ==>
            shares[k].container < |cs| && 0 < shares[k].count == Amount(cs[shares[k].container], name))
      && (forall k, l :: 0 <= k < l < |shares| ==> shares[k].container < shares[l].container)
      && (forall i :: 0 <= i < |cs| && Amount(cs[i], name) > 0 ==> Share(i, Amount(cs[i], name)) in shares)
  {
    if cs != [] {
      SharesFacts(cs[..|cs| - 1], name);
    }
  }

  lemma SharesStep(cs: seq<Container>, i: nat, name: string)
    requires i < |cs|
    ensures SharesOf(cs[..i + 1], name) ==
      if Amount(cs[i], name) > 0 then SharesOf(cs[..i], name) + [Share(i, Amount(cs[i], name))]
      else SharesOf(cs[..i], name)
  {
    assert cs[..i + 1][..i] == cs[..i];
  }

  type InterceptMap = map<string, string>

  // Entries for distinct intercepted resources that the pod asks for
  ghost predicate AreShares(cs: seq<Container>, intercepts: InterceptMap, reqs: seq<Intercepted>) {
    && (forall k :: 0 <= k < |reqs| ==>
          && reqs[k].resource in intercepts && reqs[k].cls == intercepts[reqs[k].resource]
          && reqs[k].shares == SharesOf(cs, reqs[k].resource) && reqs[k].shares != [])
    && forall k, l :: 0 <= k < l < |reqs| ==> reqs[k].resource != reqs[l].resource
  }

  // One entry for each intercepted resource the pod asks for, in any order
  ghost predicate IsExtraction(cs: seq<Container>, intercepts: InterceptMap, reqs: seq<Intercepted>) {
    && AreShares(cs, intercepts, reqs)
    && (forall name :: name in intercepts && SharesOf(cs, name) != [] ==>
          exists k :: 0 <= k < |reqs| && reqs[k].resource == name)
  }

  // A positive amount of the resource in the container's requests, or 0
  function Positive(c: Container, name: string): nat {
    if c.resources.requests.Some? && name in c.resources.requests.value && c.resources.requests.value[name] > 0
    then c.resources.requests.value[name] else 0
  }

  // Which resources have an entry, under which class, and with which shares
  lemma ExtractionMeans(cs: seq<Container>, intercepts: InterceptMap, reqs: seq<Intercepted>, name: string)
    requires IsExtraction(cs, intercepts, reqs)
    ensures (exists k :: 0 <= k < |reqs| && reqs[k].resource == name) <==>
      name in intercepts && exists i :: 0 <= i < |cs| && Positive(cs[i], name) > 0
    ensures forall k :: 0 <= k < |reqs| && reqs[k].resource == name ==>
      && reqs[k].cls == intercepts[name]
      && (forall s :: s in reqs[k].shares ==> s.container < |cs| && s.count == Positive(cs[s.container], name) > 0)
      && forall i :: 0 <= i < |cs| && Positive(cs[i], name) > 0 ==> Share(i, Positive(cs[i], name)) in reqs[k].shares
  {
    SharesFacts(cs, name);
    var shares := SharesOf(cs, name);
    if i :| 0 <= i < |cs| && Positive(cs[i], name) > 0 {
      assert Share(i, Amount(cs[i], name)) in shares;
    }
    if shares != [] {
      assert Positive(cs[shares[0].container], name) > 0;
    }
  }

  // extractInterceptedResources
  method ExtractInterceptedResources(pod: Pod, intercepts: InterceptMap) returns (reqs: seq<Intercepted>)
    ensures IsExtraction(pod.spec.containers, intercepts, reqs)
  {
    var byResource := CollectShares(pod.spec.containers, intercepts);
    reqs := [];
    var left := byResource.Keys;
    while left != {}
      invariant left <= byResource.Keys
      invariant forall k :: 0 <= k < |reqs| ==>
        && reqs[k].resource in byResource.Keys - left
        && reqs[k] == Intercepted(reqs[k].resource, intercepts[reqs[k].resource], byResource[reqs[k].resource])
      invariant forall k, l :: 0 <= k < l < |reqs| ==> reqs[k].resource != reqs[l].resource
      invariant forall name :: name in byResource && name !in left ==>
        Intercepted(name, intercepts[name], byResource[name]) in reqs
      decreases left
    {
      var name := AnyOf(left);
      left := left - {name};
      reqs := reqs + [Intercepted(name, intercepts[name], byResource[name])];
    }
    forall name | name in byResource
      ensures exists k :: 0 <= k < |reqs| && reqs[k].resource == name
    {
      assert Intercepted(name, intercepts[name], byResource[name]) in reqs;
    }
  }

  method CollectShares(cs: seq<Container>, intercepts: InterceptMap) returns (byResource: map<string, seq<Share>>)
    ensures ByResource(cs, intercepts, byResource)
  {
    byResource := map[];
    for i := 0 to |cs|
      invariant ByResource(cs[..i], intercepts, byResource)
    {
      byResource := AddContainer(cs, intercepts, i, byResource);
    }
    assert cs[..|cs|] == cs;
  }

  // Container i, for every intercepted resource
  method AddContainer(cs: seq<Container>, intercepts: InterceptMap, i: nat, before: map<string, seq<Share>>)
    returns (byResource: map<string, seq<Share>>)
    requires i < |cs| && ByResource(cs[..i], intercepts, before)
    ensures ByResource(cs[..i + 1], intercepts, byResource)
  {
    byResource := before;
    ghost var shorter, longer := cs[..i], cs[..i + 1];
    var left := intercepts.Keys;
    while left != {}
      invariant left <= intercepts.Keys
      invariant forall name :: name in byResource <==>
        name in intercepts && SharesOf(if name in left then shorter else longer, name) != []
      invariant forall name :: name in byResource ==>
        byResource[name] == SharesOf(if name in left then shorter else longer, name)
      decreases left
    {
      var name := AnyOf(left);
      left := left - {name};
      var amount := Amount(cs[i], name);
      SharesStep(cs, i, name);
      if amount <= 0 {
        continue;
      }
      byResource := byResource[name := (if name in byResource then byResource[name] else []) + [Share(i, amount)]];
    }
  }

  ghost predicate ByResource(cs: seq<Container>, intercepts: InterceptMap, byResource: map<string, seq<Share>>) {
    && (forall name :: name in byResource <==> name in intercepts && SharesOf(cs, name) != [])
    && (forall name :: name in byResource ==> byResource[name] == SharesOf(cs, name))
  }
}
