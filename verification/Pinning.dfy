// What pinning a pod means to the allocator's own reading of it, and to later pods.
module Pinning {
  import opened Basics
  import opened Pods
  import opened Builders
  import opened Constraints
  import opened Batches
  import opened Mutator

  // ---- the pinned pod -------------------------------------------------------

  lemma PinnedTermMatches(t: Term, n: string, node: Node)
    ensures MatchesTerm(node, PinTerm(t, n)) <==> MatchesTerm(node, t) && node.name == n
  {
    var fields, pinned := Listed(t.fields), Listed(PinTerm(t, n).fields);
    assert forall i :: 0 <= i < |fields| ==> pinned[i] == fields[i];
    assert pinned[|fields|] == PinField(n);
  }

  // Pinning is intersection: the patched affinity accepts a node exactly when
  // the original did and the node is the selected one.
  lemma PinIsIntersection(p: Pod, n: string, node: Node)
    ensures MatchesNodeAffinity(Pin(p, n), node) <==> MatchesNodeAffinity(p, node) && node.name == n
  {
    var before, after := RequiredTerms(p.spec.affinity), RequiredTerms(Pin(p, n).spec.affinity);
    if before.None? {
      assert after.value == OnlyPin(n);
      PinnedTermMatches(Term(None, None), n, node);
      assert [] + [PinField(n)] == [PinField(n)];
      assert OnlyPin(n)[0] == PinTerm(Term(None, None), n);
    } else {
      assert after.value == PinTerms(before.value, n);
      forall i | 0 <= i < |before.value|
        ensures MatchesTerm(node, after.value[i]) <==> MatchesTerm(node, before.value[i]) && node.name == n
      {
        PinnedTermMatches(before.value[i], n, node);
      }
      if MatchesNodeAffinity(p, node) && node.name == n {
        var i :| 0 <= i < |before.value| && MatchesTerm(node, before.value[i]);
        assert MatchesTerm(node, after.value[i]);
      }
    }
  }

  lemma TargetAffinity(pod: Pod, plan: Plan)
    ensures Target(pod, plan).spec.affinity == Pin(pod, plan.node).spec.affinity
    ensures Target(pod, plan).spec.nodeName == pod.spec.nodeName && Target(pod, plan).phase == pod.phase
  {
    BatchesEffect(pod, plan.batches);
  }

  // Since the node passed the allocator's filter, the patched pod accepts
  // exactly that node of the cluster, never none.
  lemma TargetAcceptsOneNode(pod: Pod, namespace: string, cluster: Cluster, plan: Plan, m: string)
    requires Admits(pod, namespace, cluster, plan.node) && m in ByName(cluster.nodes.value)
    ensures MatchesNodeAffinity(Target(pod, plan), ByName(cluster.nodes.value)[m]) <==> m == plan.node
  {
    var nodes := ByName(cluster.nodes.value);
    TargetAffinity(pod, plan);
    PinIsIntersection(pod, plan.node, nodes[m]);
    ByNameKeepsNames(cluster.nodes.value, m);
  }

  // ---- what later calls read from it ----------------------------------------

  lemma {:induction false} FirstPinAppended(fields: seq<Requirement>, f: Requirement)
    ensures FirstPin(fields + [f]) ==
      if FirstPin(fields).Some? then FirstPin(fields) else if IsPin(f) then Some(f.values[0]) else None
  {
    if fields == [] {
      assert [] + [f] == [f];
      assert [f][1..] == [];
    } else {
      assert (fields + [f])[1..] == fields[1..] + [f];
      FirstPinAppended(fields[1..], f);
    }
  }

  // The pin a pod already carries in its first required term, if any
  function EarlierPin(pod: Pod): Option<string> {
    var required := RequiredTerms(pod.spec.affinity);
    if required.None? || required.value == [] then None else FirstPin(Listed(required.value[0].fields))
  }

  // An unscheduled pod, once pinned, is read as being on the selected node
  // exactly when its first required term had no other single-valued
  // metadata.name field. Terms after the first do not matter.
  lemma PinnedPodIsRead(p: Pod, n: string)
    requires p.spec.nodeName == ""
    requires RequiredTerms(p.spec.affinity) != Some([])
    ensures PodNodeName(Pin(p, n)) == n <==> EarlierPin(p).None? || EarlierPin(p) == Some(n)
  {
    var before, after := RequiredTerms(p.spec.affinity), RequiredTerms(Pin(p, n).spec.affinity);
    var fields := if before.None? then [] else Listed(before.value[0].fields);
    FirstPinAppended(fields, PinField(n));
    assert Listed(after.value[0].fields) == fields + [PinField(n)];
  }

  // A pod pinned to b whose first term names a, in full
  lemma FirstTermHidesPin(a: string, b: string, p: Pod)
    requires a != b && p.spec.nodeName == ""
    requires RequiredTerms(p.spec.affinity) ==
      Some([Term(None, Some([PinField(a)])), Term(None, Some([PinField(b)]))])
    ensures MatchesNodeAffinity(p, Node(b, map[]))
    ensures PodNodeName(Pin(p, b)) == a
  {
    assert MatchesTerm(Node(b, map[]), RequiredTerms(p.spec.affinity).value[1]);
    FirstPinAppended([PinField(a)], PinField(b));
    assert Listed(RequiredTerms(Pin(p, b).spec.affinity).value[0].fields) == [PinField(a)] + [PinField(b)];
    assert FirstPin([PinField(a)]) == Some(a);
  }

  // What has become of the patched pod: it is scheduled to the selected node, or
  // it is not scheduled yet and still has the affinity of the patch, in which no
  // earlier pin hides the mutator's.
  predicate Became(pod: Pod, plan: Plan, q: Pod) {
    || q.spec.nodeName == plan.node
    || (&& q.spec.nodeName == "" && q.spec.affinity == Target(pod, plan).spec.affinity
        && RequiredTerms(pod.spec.affinity) != Some([])
        && (EarlierPin(pod).None? || EarlierPin(pod) == Some(plan.node)))
  }

  lemma BecameIsRead(pod: Pod, plan: Plan, q: Pod)
    requires Became(pod, plan, q) && plan.node != ""
    ensures PodNodeName(q) == plan.node
  {
    if q.spec.nodeName == "" {
      var unscheduled := pod.(spec := pod.spec.(nodeName := ""));
      TargetAffinity(pod, plan);
      PinnedPodIsRead(unscheduled, plan.node);
      assert PodNodeName(q) == PodNodeName(Pin(unscheduled, plan.node));
    }
  }

  // A later pod with a required anti-affinity term that lists what the patched
  // pod has become, unfinished, is not admitted to any node of the selected
  // node's topology domain.
  lemma PinnedPodExcludesDomain(pod: Pod, plan: Plan, q: Pod, later: Pod, namespace: string, cluster: Cluster,
                                term: PodTerm, ns: string, m: string)
    requires Became(pod, plan, q) && !Finished(q) && plan.node != ""
    requires term in AntiTerms(later) && term.topologyKey != ""
    requires ns in NamespacesOf(term, namespace) && (ns, term.selector) in cluster.lists
    requires q in cluster.lists[(ns, term.selector)]
    requires cluster.nodes.Some? && var nodes := ByName(cluster.nodes.value);
      && plan.node in nodes && m in nodes
      && term.topologyKey in nodes[plan.node].labels && term.topologyKey in nodes[m].labels
      && nodes[plan.node].labels[term.topologyKey] == nodes[m].labels[term.topologyKey]
    ensures !Admits(later, namespace, cluster, m)
  {
    var nodes := ByName(cluster.nodes.value);
    BecameIsRead(pod, plan, q);
    var v := nodes[m].labels[term.topologyKey];
    assert Occupies(q, term.topologyKey, nodes, v);
    var i :| 0 <= i < |NamespacesOf(term, namespace)| && NamespacesOf(term, namespace)[i] == ns;
    var j :| 0 <= j < |cluster.lists[(ns, term.selector)]| && cluster.lists[(ns, term.selector)][j] == q;
    assert Occupies(cluster.lists[(NamespacesOf(term, namespace)[i], term.selector)][j], term.topologyKey, nodes, v);
    assert Occupied(term, namespace, cluster, nodes, v);
  }
}
