// Which nodes a pod may be placed on: node selector, node affinity, pod
// anti-affinity and pod affinity.
module Constraints {
  import opened Basics
  import opened Json
  import opened Pods
  import opened Sorting

  // What the API server answers during one call: the node list, the pods listed
  // for a namespace and label selector (a missing entry is a list that failed),
  // and the label selectors that do not parse.
  datatype Cluster = Cluster(
    nodes: Option<seq<Node>>, lists: map<(string, Json), seq<Pod>>, badSelectors: set<Json>)

  type NodeMap = map<string, Node>

  function ByName(nodes: seq<Node>): NodeMap {
    if nodes == [] then map[]
    else
      var last := nodes[|nodes| - 1];
      ByName(nodes[..|nodes| - 1])[last.name := last]
  }

  lemma {:induction false} ByNameKeepsNames(nodes: seq<Node>, n: string)
    requires n in ByName(nodes)
    ensures ByName(nodes)[n].name == n && ByName(nodes)[n] in nodes
  {
    var last := nodes[|nodes| - 1];
    if n != last.name {
      ByNameKeepsNames(nodes[..|nodes| - 1], n);
    }
  }

  // ---- node-level constraints -----------------------------------------------

  predicate MatchesNodeSelector(pod: Pod, node: Node) {
    pod.spec.nodeSelector.Some? ==>
      forall k :: k in pod.spec.nodeSelector.value ==>
        k in node.labels && node.labels[k] == pod.spec.nodeSelector.value[k]
  }

  function RequiredTerms(a: Option<Affinity>): Option<seq<Term>> {
    if a.Some? && a.value.node.Some? then a.value.node.value.required else None
  }

  predicate MatchesNodeAffinity(pod: Pod, node: Node) {
    var required := RequiredTerms(pod.spec.affinity);
    required.Some? ==> exists i :: 0 <= i < |required.value| && MatchesTerm(node, required.value[i])
  }

  function Listed(rs: Option<seq<Requirement>>): seq<Requirement> {
    if rs.None? then [] else rs.value
  }

  predicate MatchesTerm(node: Node, term: Term) {
    && (forall i :: 0 <= i < |Listed(term.expressions)| ==>
          MatchesExpression(node.labels, Listed(term.expressions)[i]))
    && (forall i :: 0 <= i < |Listed(term.fields)| ==> MatchesField(node, Listed(term.fields)[i]))
  }

  predicate MatchesExpression(labels: map<string, string>, req: Requirement) {
    match req.op
    case In => req.key in labels && labels[req.key] in req.values
    case NotIn => req.key in labels ==> labels[req.key] !in req.values
    case Exists => req.key in labels
    case DoesNotExist => req.key !in labels
    case Other(_) => true
  }

  predicate MatchesField(node: Node, req: Requirement) {
    req.key == "metadata.name" ==>
      match req.op
      case In => node.name in req.values
      case NotIn => node.name !in req.values
      case _ => true
  }

  // ---- where a pod is, or is pinned to --------------------------------------

  predicate IsPin(f: Requirement) {
    f.key == "metadata.name" && f.op == In && |f.values| == 1
  }

  function FirstPin(fields: seq<Requirement>): Option<string> {
    if fields == [] then None
    else if IsPin(fields[0]) then Some(fields[0].values[0])
    else FirstPin(fields[1..])
  }

  function FirstPinOfTerms(terms: seq<Term>): Option<string> {
    if terms == [] then None
    else
      var pin := FirstPin(Listed(terms[0].fields));
      if pin.Some? then pin else FirstPinOfTerms(terms[1..])
  }

  // podNodeName; "" when the pod has no node
  function PodNodeName(pod: Pod): string {
    if pod.spec.nodeName != "" then pod.spec.nodeName
    else
      var required := RequiredTerms(pod.spec.affinity);
      if required.None? then ""
      else
        var pin := FirstPinOfTerms(required.value);
        if pin.Some? then pin.value else ""
  }

  // ---- pod-level constraints ------------------------------------------------

  predicate Finished(pod: Pod) {
    pod.phase == "Succeeded" || pod.phase == "Failed"
  }

  // The pod occupies the value v of a topology key.
  predicate Occupies(pod: Pod, key: string, nodes: NodeMap, v: string) {
    && !Finished(pod)
    && PodNodeName(pod) != ""
    && PodNodeName(pod) in nodes
    && key in nodes[PodNodeName(pod)].labels
    && nodes[PodNodeName(pod)].labels[key] == v
  }

  function NamespacesOf(term: PodTerm, namespace: string): seq<string> {
    if term.namespaces == [] then [namespace] else term.namespaces
  }

  // Some listed, unfinished pod that the term selects occupies the value v.
  ghost predicate Occupied(term: PodTerm, namespace: string, cluster: Cluster, nodes: NodeMap, v: string) {
    exists i, j :: 0 <= i < |NamespacesOf(term, namespace)| &&
      var list := (NamespacesOf(term, namespace)[i], term.selector);
      list in cluster.lists && 0 <= j < |cluster.lists[list]| &&
      Occupies(cluster.lists[list][j], term.topologyKey, nodes, v)
  }

  ghost predicate AntiHolds(term: PodTerm, namespace: string, cluster: Cluster, nodes: NodeMap, n: string)
    requires n in nodes
  {
    term.topologyKey != "" && term.topologyKey in nodes[n].labels ==>
      !Occupied(term, namespace, cluster, nodes, nodes[n].labels[term.topologyKey])
  }

  ghost predicate AffinityHolds(term: PodTerm, namespace: string, cluster: Cluster, nodes: NodeMap, n: string)
    requires n in nodes
  {
    term.topologyKey != "" ==>
      term.topologyKey in nodes[n].labels &&
      Occupied(term, namespace, cluster, nodes, nodes[n].labels[term.topologyKey])
  }

  function AntiTerms(pod: Pod): seq<PodTerm> {
    if pod.spec.affinity.Some? && pod.spec.affinity.value.anti.Some?
    then pod.spec.affinity.value.anti.value.required else []
  }

  function AffinityTerms(pod: Pod): seq<PodTerm> {
    if pod.spec.affinity.Some? && pod.spec.affinity.value.pod.Some?
    then pod.spec.affinity.value.pod.value.required else []
  }

  // The whole constraint, stated without any order of nodes, terms or lists
  ghost predicate Admits(pod: Pod, namespace: string, cluster: Cluster, n: string) {
    cluster.nodes.Some? &&
    var nodes := ByName(cluster.nodes.value);
    && n in nodes
    && MatchesNodeSelector(pod, nodes[n])
    && MatchesNodeAffinity(pod, nodes[n])
    && (forall t :: t in AntiTerms(pod) ==> AntiHolds(t, namespace, cluster, nodes, n))
    && (forall t :: t in AffinityTerms(pod) ==> AffinityHolds(t, namespace, cluster, nodes, n))
  }

  ghost predicate SelectorsParse(terms: seq<PodTerm>, cluster: Cluster) {
    forall t :: t in terms && t.topologyKey != "" ==> t.selector !in cluster.badSelectors
  }

  ghost predicate CanFilter(pod: Pod, cluster: Cluster) {
    cluster.nodes.Some? && SelectorsParse(AntiTerms(pod), cluster) && SelectorsParse(AffinityTerms(pod), cluster)
  }

  // ---- the filter -----------------------------------------------------------

  method IndexNodes(nodes: seq<Node>) returns (byName: NodeMap)
    ensures byName == ByName(nodes)
  {
    byName := map[];
    for i := 0 to |nodes|
      invariant byName == ByName(nodes[..i])
    {
      assert nodes[..i + 1][..i] == nodes[..i];
      byName := byName[nodes[i].name := nodes[i]];
    }
    assert nodes[..|nodes|] == nodes;
  }

  method OccupiedTopologyValues(term: PodTerm, namespace: string, cluster: Cluster, nodes: NodeMap)
    returns (values: set<string>)
    ensures forall v :: v in values <==> Occupied(term, namespace, cluster, nodes, v)
  {
    values := {};
    var namespaces := NamespacesOf(term, namespace);
    for i := 0 to |namespaces|
      invariant forall v :: v in values <==> OccupiedUpTo(term, namespaces[..i], cluster, nodes, v)
    {
      var list := (namespaces[i], term.selector);
      if list in cluster.lists {
        var found := ListedValues(cluster.lists[list], term.topologyKey, nodes);
        values := values + found;
      }
      assert namespaces[..i + 1] == namespaces[..i] + [namespaces[i]];
      forall v
        ensures OccupiedUpTo(term, namespaces[..i + 1], cluster, nodes, v) <==>
          OccupiedUpTo(term, namespaces[..i], cluster, nodes, v) || OccupiedIn(term, namespaces[i], cluster, nodes, v)
      {
      }
    }
    assert namespaces[..|namespaces|] == namespaces;
    forall v
      ensures OccupiedUpTo(term, namespaces, cluster, nodes, v) <==> Occupied(term, namespace, cluster, nodes, v)
    {
      if OccupiedUpTo(term, namespaces, cluster, nodes, v) {
        var ns :| ns in namespaces && OccupiedIn(term, ns, cluster, nodes, v);
        var i :| 0 <= i < |namespaces| && namespaces[i] == ns;
        var j :| 0 <= j < |cluster.lists[(ns, term.selector)]| &&
          Occupies(cluster.lists[(ns, term.selector)][j], term.topologyKey, nodes, v);
        assert Occupies(cluster.lists[(namespaces[i], term.selector)][j], term.topologyKey, nodes, v);
      }
      if Occupied(term, namespace, cluster, nodes, v) {
        var i, j :| 0 <= i < |namespaces| && (namespaces[i], term.selector) in cluster.lists &&
          0 <= j < |cluster.lists[(namespaces[i], term.selector)]| &&
          Occupies(cluster.lists[(namespaces[i], term.selector)][j], term.topologyKey, nodes, v);
        assert OccupiedIn(term, namespaces[i], cluster, nodes, v);
      }
    }
  }

  ghost predicate OccupiedIn(term: PodTerm, ns: string, cluster: Cluster, nodes: NodeMap, v: string) {
    (ns, term.selector) in cluster.lists &&
    exists j :: 0 <= j < |cluster.lists[(ns, term.selector)]| &&
      Occupies(cluster.lists[(ns, term.selector)][j], term.topologyKey, nodes, v)
  }

  ghost predicate OccupiedUpTo(term: PodTerm, namespaces: seq<string>, cluster: Cluster, nodes: NodeMap, v: string) {
    exists ns :: ns in namespaces && OccupiedIn(term, ns, cluster, nodes, v)
  }

  method ListedValues(pods: seq<Pod>, key: string, nodes: NodeMap) returns (values: set<string>)
    ensures forall v :: v in values <==> exists j :: 0 <= j < |pods| && Occupies(pods[j], key, nodes, v)
  {
    values := {};
    for j := 0 to |pods|
      invariant forall v :: v in values <==> exists i :: 0 <= i < j && Occupies(pods[i], key, nodes, v)
    {
      if Finished(pods[j]) {
        continue;
      }
      var name := PodNodeName(pods[j]);
      if name == "" || name !in nodes {
        continue;
      }
      if key in nodes[name].labels {
        values := values + {nodes[name].labels[key]};
      }
    }
  }

  method FilterByPodAntiAffinity(terms: seq<PodTerm>, namespace: string, candidates: seq<string>,
                                 nodes: NodeMap, cluster: Cluster) returns (r: Result<seq<string>>)
    requires forall n :: n in candidates ==> n in nodes
    requires NoRepeats(candidates)
    ensures r.Ok? <==> SelectorsParse(terms, cluster)
    ensures r.Ok? ==> NoRepeats(r.value)
    ensures r.Ok? ==> forall n :: n in r.value <==>
      n in candidates && forall t :: t in terms ==> AntiHolds(t, namespace, cluster, nodes, n)
  {
    var kept := candidates;
    for i := 0 to |terms|
      invariant NoRepeats(kept) && SelectorsParse(terms[..i], cluster)
      invariant forall n :: n in kept ==> n in nodes
      invariant forall n :: n in kept <==>
        n in candidates && forall t :: t in terms[..i] ==> AntiHolds(t, namespace, cluster, nodes, n)
    {
      var term := terms[i];
      assert terms[..i + 1] == terms[..i] + [term];
      if term.topologyKey == "" {
        continue;
      }
      if term.selector in cluster.badSelectors {
        return Err("invalid anti-affinity label selector");
      }
      var excluded := OccupiedTopologyValues(term, namespace, cluster, nodes);
      var filtered := [];
      for j := 0 to |kept|
        invariant NoRepeats(filtered) && forall n :: n in filtered ==> n in kept[..j]
        invariant forall n :: n in filtered <==> n in kept[..j] && AntiHolds(term, namespace, cluster, nodes, n)
      {
        assert kept[..j + 1] == kept[..j] + [kept[j]];
        assert kept[j] !in kept[..j];
        var labels := nodes[kept[j]].labels;
        if term.topologyKey !in labels || labels[term.topologyKey] !in excluded {
          filtered := filtered + [kept[j]];
        }
      }
      assert kept[..|kept|] == kept;
      kept := filtered;
    }
    assert terms[..|terms|] == terms;
    r := Ok(kept);
  }

  method FilterByPodAffinity(terms: seq<PodTerm>, namespace: string, candidates: seq<string>,
                             nodes: NodeMap, cluster: Cluster) returns (r: Result<seq<string>>)
    requires forall n :: n in candidates ==> n in nodes
    requires NoRepeats(candidates)
    ensures r.Ok? <==> SelectorsParse(terms, cluster)
    ensures r.Ok? ==> NoRepeats(r.value)
    ensures r.Ok? ==> forall n :: n in r.value <==>
      n in candidates && forall t :: t in terms ==> AffinityHolds(t, namespace, cluster, nodes, n)
  {
    var kept := candidates;
    for i := 0 to |terms|
      invariant NoRepeats(kept) && SelectorsParse(terms[..i], cluster)
      invariant forall n :: n in kept ==> n in nodes
      invariant forall n :: n in kept <==>
        n in candidates && forall t :: t in terms[..i] ==> AffinityHolds(t, namespace, cluster, nodes, n)
    {
      var term := terms[i];
      assert terms[..i + 1] == terms[..i] + [term];
      if term.topologyKey == "" {
        continue;
      }
      if term.selector in cluster.badSelectors {
        return Err("invalid affinity label selector");
      }
      var required := OccupiedTopologyValues(term, namespace, cluster, nodes);
      var filtered := [];
      for j := 0 to |kept|
        invariant NoRepeats(filtered) && forall n :: n in filtered ==> n in kept[..j]
        invariant forall n :: n in filtered <==> n in kept[..j] && AffinityHolds(term, namespace, cluster, nodes, n)
      {
        assert kept[..j + 1] == kept[..j] + [kept[j]];
        assert kept[j] !in kept[..j];
        var labels := nodes[kept[j]].labels;
        if term.topologyKey in labels && labels[term.topologyKey] in required {
          filtered := filtered + [kept[j]];
        }
      }
      assert kept[..|kept|] == kept;
      kept := filtered;
    }
    assert terms[..|terms|] == terms;
    r := Ok(kept);
  }

  // Exactly the named nodes the pod may be placed on, each once; an error when
  // the nodes cannot be listed or a selector in use does not parse.
  method FilterNodesByConstraints(pod: Pod, namespace: string, names: set<string>, cluster: Cluster)
    returns (r: Result<seq<string>>)
    ensures r.Ok? <==> CanFilter(pod, cluster)
    ensures r.Ok? ==> NoRepeats(r.value)
    ensures r.Ok? ==> forall n :: n in r.value <==> n in names && Admits(pod, namespace, cluster, n)
  {
    if cluster.nodes.None? {
      return Err("failed to list nodes");
    }
    var nodes := IndexNodes(cluster.nodes.value);
    var candidates: seq<string> := [];
    var left := names;
    while left != {}
      invariant left <= names
      invariant NoRepeats(candidates)
      invariant forall n :: n in candidates <==>
        n in names - left && n in nodes && MatchesNodeSelector(pod, nodes[n]) && MatchesNodeAffinity(pod, nodes[n])
      decreases left
    {
      var n := AnyOf(left);
      left := left - {n};
      if n !in nodes || !MatchesNodeSelector(pod, nodes[n]) || !MatchesNodeAffinity(pod, nodes[n]) {
        continue;
      }
      candidates := candidates + [n];
    }
    if pod.spec.affinity.Some? && pod.spec.affinity.value.anti.Some? {
      r := FilterByPodAntiAffinity(AntiTerms(pod), namespace, candidates, nodes, cluster);
      if r.Err? {
        return;
      }
      candidates := r.value;
    }
    if pod.spec.affinity.Some? && pod.spec.affinity.value.pod.Some? {
      r := FilterByPodAffinity(AffinityTerms(pod), namespace, candidates, nodes, cluster);
      if r.Err? {
        return;
      }
      candidates := r.value;
    }
    r := Ok(candidates);
  }
}
