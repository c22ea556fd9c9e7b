// What admission to a node means in terms of labels, names and placed pods alone.
module NodeRules {
  import opened Basics
  import opened Json
  import opened Pods
  import opened Constraints

  // ---- the listed node ------------------------------------------------------

  // The node of that name that the list gives; of several the last
  ghost predicate IsListed(cluster: Cluster, n: string, node: Node) {
    cluster.nodes.Some? && node.name == n &&
    exists i :: 0 <= i < |cluster.nodes.value| && cluster.nodes.value[i] == node &&
      forall j :: i < j < |cluster.nodes.value| ==> cluster.nodes.value[j].name != n
  }

  lemma {:induction false} LastIsRead(nodes: seq<Node>, i: nat)
    requires i < |nodes| && forall j :: i < j < |nodes| ==> nodes[j].name != nodes[i].name
    ensures nodes[i].name in ByName(nodes) && ByName(nodes)[nodes[i].name] == nodes[i]
  {
    var m := |nodes| - 1;
    if i < m {
      assert nodes[..m][i] == nodes[i];
      LastIsRead(nodes[..m], i);
    }
  }

  lemma {:induction false} ReadIsLast(nodes: seq<Node>, n: string) returns (i: nat)
    requires n in ByName(nodes)
    ensures i < |nodes| && nodes[i].name == n && forall j :: i < j < |nodes| ==> nodes[j].name != n
  {
    i := |nodes| - 1;
    if nodes[i].name != n {
      i := ReadIsLast(nodes[..|nodes| - 1], n);
    }
  }

  lemma ListedIsRead(cluster: Cluster, n: string, node: Node)
    requires cluster.nodes.Some?
    ensures IsListed(cluster, n, node) <==>
      n in ByName(cluster.nodes.value) && ByName(cluster.nodes.value)[n] == node
  {
    var nodes := cluster.nodes.value;
    if IsListed(cluster, n, node) {
      var i :| 0 <= i < |nodes| && nodes[i] == node && forall j :: i < j < |nodes| ==> nodes[j].name != n;
      LastIsRead(nodes, i);
    }
    if n in ByName(nodes) {
      var i := ReadIsLast(nodes, n);
      LastIsRead(nodes, i);
    }
  }

  // ---- pods with one constraint ---------------------------------------------

  function OnlySelector(pod: Pod, labels: map<string, string>): Pod {
    pod.(spec := pod.spec.(nodeSelector := Some(labels), affinity := None))
  }

  function OnlyTerms(pod: Pod, terms: seq<Term>): Pod {
    pod.(spec := pod.spec.(nodeSelector := None,
      affinity := Some(Affinity(Some(NodeAffinity(Some(terms), map[])), None, None))))
  }

  function OnlyAnti(pod: Pod, term: PodTerm): Pod {
    pod.(spec := pod.spec.(nodeSelector := None, affinity := Some(Affinity(None, None, Some(PodTerms([term], map[]))))))
  }

  function OnlyAffinity(pod: Pod, term: PodTerm): Pod {
    pod.(spec := pod.spec.(nodeSelector := None, affinity := Some(Affinity(None, Some(PodTerms([term], map[])), None))))
  }

  // A node selector asks for its labels.
  lemma SelectorAdmits(pod: Pod, labels: map<string, string>, namespace: string, cluster: Cluster, n: string)
    ensures Admits(OnlySelector(pod, labels), namespace, cluster, n) <==>
      exists node :: IsListed(cluster, n, node) &&
        forall k :: k in labels ==> k in node.labels && node.labels[k] == labels[k]
  {
    ReadNode(cluster, n);
  }

  // The only listed node of a name is the one that is read.
  lemma ReadNode(cluster: Cluster, n: string)
    ensures forall node :: IsListed(cluster, n, node) <==>
      cluster.nodes.Some? && n in ByName(cluster.nodes.value) && ByName(cluster.nodes.value)[n] == node
    ensures cluster.nodes.Some? && n in ByName(cluster.nodes.value) ==>
      IsListed(cluster, n, ByName(cluster.nodes.value)[n])
  {
    forall node
      ensures IsListed(cluster, n, node) <==>
        cluster.nodes.Some? && n in ByName(cluster.nodes.value) && ByName(cluster.nodes.value)[n] == node
    {
      if cluster.nodes.Some? {
        ListedIsRead(cluster, n, node);
      }
    }
  }

  // The pod asks for one requirement only, on labels or on fields.
  ghost predicate OneExpression(pod: Pod, req: Requirement, namespace: string, cluster: Cluster, n: string) {
    Admits(OnlyTerms(pod, [Term(Some([req]), None)]), namespace, cluster, n)
  }

  ghost predicate OneField(pod: Pod, req: Requirement, namespace: string, cluster: Cluster, n: string) {
    Admits(OnlyTerms(pod, [Term(None, Some([req]))]), namespace, cluster, n)
  }

  // What a requirement on labels admits, operator by operator
  lemma RequirementAdmits(pod: Pod, req: Requirement, namespace: string, cluster: Cluster, n: string)
    ensures var admits := OneExpression(pod, req, namespace, cluster, n);
      && (req.op == In ==>
            (admits <==> exists node ::
               IsListed(cluster, n, node) && req.key in node.labels && node.labels[req.key] in req.values))
      && (req.op == NotIn ==>
            (admits <==> exists node ::
               IsListed(cluster, n, node) && (req.key !in node.labels || node.labels[req.key] !in req.values)))
      && (req.op == Exists ==> (admits <==> exists node :: IsListed(cluster, n, node) && req.key in node.labels))
      && (req.op == DoesNotExist ==>
            (admits <==> exists node :: IsListed(cluster, n, node) && req.key !in node.labels))
      && (req.op.Other? ==> (admits <==> exists node :: IsListed(cluster, n, node)))
  {
    ReadNode(cluster, n);
    OneTerm(pod, Term(Some([req]), None), namespace, cluster, n);
    OneRequirement(req);
  }

  lemma OneRequirement(req: Requirement)
    ensures forall node :: MatchesTerm(node, Term(Some([req]), None)) <==> MatchesExpression(node.labels, req)
    ensures forall node :: MatchesTerm(node, Term(None, Some([req]))) <==> MatchesField(node, req)
  {
    assert Listed(Some([req])) == [req] && [req][0] == req;
    assert Listed(None) == [];
    forall node
      ensures MatchesTerm(node, Term(Some([req]), None)) <==> MatchesExpression(node.labels, req)
      ensures MatchesTerm(node, Term(None, Some([req]))) <==> MatchesField(node, req)
    {
      var e, f := Term(Some([req]), None), Term(None, Some([req]));
      assert MatchesTerm(node, e) ==> MatchesExpression(node.labels, Listed(e.expressions)[0]);
      assert MatchesTerm(node, f) ==> MatchesField(node, Listed(f.fields)[0]);
    }
  }

  // What a requirement on fields admits: only the node's name counts.
  lemma FieldAdmits(pod: Pod, req: Requirement, namespace: string, cluster: Cluster, n: string)
    ensures OneField(pod, req, namespace, cluster, n) <==>
      && (exists node :: IsListed(cluster, n, node))
      && (req.key == "metadata.name" && req.op == In ==> n in req.values)
      && (req.key == "metadata.name" && req.op == NotIn ==> n !in req.values)
  {
    ReadNode(cluster, n);
    OneTerm(pod, Term(None, Some([req])), namespace, cluster, n);
    OneRequirement(req);
    if cluster.nodes.Some? && n in ByName(cluster.nodes.value) {
      ByNameKeepsNames(cluster.nodes.value, n);
    }
  }

  lemma OneTerm(pod: Pod, term: Term, namespace: string, cluster: Cluster, n: string)
    ensures Admits(OnlyTerms(pod, [term]), namespace, cluster, n) <==>
      && cluster.nodes.Some? && n in ByName(cluster.nodes.value)
      && MatchesTerm(ByName(cluster.nodes.value)[n], term)
  {
    var all := OnlyTerms(pod, [term]);
    assert RequiredTerms(all.spec.affinity) == Some([term]);
    assert [term][0] == term;
  }

  // ---- combining ------------------------------------------------------------

  // Terms are alternatives.
  lemma TermsAdmit(pod: Pod, terms: seq<Term>, namespace: string, cluster: Cluster, n: string)
    ensures Admits(OnlyTerms(pod, terms), namespace, cluster, n) <==>
      exists i :: 0 <= i < |terms| && Admits(OnlyTerms(pod, [terms[i]]), namespace, cluster, n)
  {
    assert RequiredTerms(OnlyTerms(pod, terms).spec.affinity) == Some(terms);
    forall i | 0 <= i < |terms|
      ensures Admits(OnlyTerms(pod, [terms[i]]), namespace, cluster, n) <==>
        && cluster.nodes.Some? && n in ByName(cluster.nodes.value)
        && MatchesTerm(ByName(cluster.nodes.value)[n], terms[i])
    {
      OneTerm(pod, terms[i], namespace, cluster, n);
    }
  }

  // A term asks for all its requirements; an empty one admits every node.
  lemma TermAdmits(pod: Pod, term: Term, namespace: string, cluster: Cluster, n: string)
    ensures Admits(OnlyTerms(pod, [term]), namespace, cluster, n) <==>
      && (exists node :: IsListed(cluster, n, node))
      && (term.expressions.Some? ==> forall i :: 0 <= i < |term.expressions.value| ==>
            OneExpression(pod, term.expressions.value[i], namespace, cluster, n))
      && (term.fields.Some? ==> forall i :: 0 <= i < |term.fields.value| ==>
            OneField(pod, term.fields.value[i], namespace, cluster, n))
  {
    ReadNode(cluster, n);
    OneTerm(pod, term, namespace, cluster, n);
    var expressions, fields := Listed(term.expressions), Listed(term.fields);
    forall req
      ensures OneExpression(pod, req, namespace, cluster, n) <==>
        && cluster.nodes.Some? && n in ByName(cluster.nodes.value)
        && MatchesExpression(ByName(cluster.nodes.value)[n].labels, req)
      ensures OneField(pod, req, namespace, cluster, n) <==>
        && cluster.nodes.Some? && n in ByName(cluster.nodes.value) && MatchesField(ByName(cluster.nodes.value)[n], req)
    {
      OneRequirementRead(pod, req, namespace, cluster, n);
    }
    if cluster.nodes.Some? && n in ByName(cluster.nodes.value) {
      var node := ByName(cluster.nodes.value)[n];
      assert forall i :: 0 <= i < |expressions| ==>
        (MatchesExpression(node.labels, expressions[i]) <==> OneExpression(pod, expressions[i], namespace, cluster, n));
      assert forall i :: 0 <= i < |fields| ==>
        (MatchesField(node, fields[i]) <==> OneField(pod, fields[i], namespace, cluster, n));
    }
  }

  lemma OneRequirementRead(pod: Pod, req: Requirement, namespace: string, cluster: Cluster, n: string)
    ensures OneExpression(pod, req, namespace, cluster, n) <==>
      && cluster.nodes.Some? && n in ByName(cluster.nodes.value)
      && MatchesExpression(ByName(cluster.nodes.value)[n].labels, req)
    ensures OneField(pod, req, namespace, cluster, n) <==>
      && cluster.nodes.Some? && n in ByName(cluster.nodes.value)
      && MatchesField(ByName(cluster.nodes.value)[n], req)
  {
    OneTerm(pod, Term(Some([req]), None), namespace, cluster, n);
    OneTerm(pod, Term(None, Some([req])), namespace, cluster, n);
    OneRequirement(req);
  }

  // The constraints of a pod hold together: its node selector, its required
  // terms, and each of its pod terms.
  lemma ConstraintsAdmit(pod: Pod, namespace: string, cluster: Cluster, n: string)
    ensures Admits(pod, namespace, cluster, n) <==>
      && (exists node :: IsListed(cluster, n, node))
      && (pod.spec.nodeSelector.Some? ==>
            Admits(OnlySelector(pod, pod.spec.nodeSelector.value), namespace, cluster, n))
      && (pod.spec.affinity.Some? ==>
            var a := pod.spec.affinity.value;
            && (a.node.Some? && a.node.value.required.Some? ==>
                  Admits(OnlyTerms(pod, a.node.value.required.value), namespace, cluster, n))
            && (a.anti.Some? ==> forall t :: t in a.anti.value.required ==>
                  Admits(OnlyAnti(pod, t), namespace, cluster, n))
            && (a.pod.Some? ==> forall t :: t in a.pod.value.required ==>
                  Admits(OnlyAffinity(pod, t), namespace, cluster, n)))
  {
    ReadNode(cluster, n);
    if pod.spec.nodeSelector.Some? {
      SelectorRead(pod, pod.spec.nodeSelector.value, namespace, cluster, n);
    }
    if RequiredTerms(pod.spec.affinity).Some? {
      TermsRead(pod, RequiredTerms(pod.spec.affinity).value, namespace, cluster, n);
    }
    forall t
      ensures Admits(OnlyAnti(pod, t), namespace, cluster, n) <==>
        && cluster.nodes.Some? && n in ByName(cluster.nodes.value)
        && AntiHolds(t, namespace, cluster, ByName(cluster.nodes.value), n)
      ensures Admits(OnlyAffinity(pod, t), namespace, cluster, n) <==>
        && cluster.nodes.Some? && n in ByName(cluster.nodes.value)
        && AffinityHolds(t, namespace, cluster, ByName(cluster.nodes.value), n)
    {
      PodTermRead(pod, t, namespace, cluster, n);
    }
  }

  // So a requirement that every required term carries is met by the labels of an
  // admitted node.
  lemma SharedRequirementIsMet(pod: Pod, req: Requirement, namespace: string, cluster: Cluster, n: string, node: Node)
    requires Admits(pod, namespace, cluster, n) && IsListed(cluster, n, node)
    requires pod.spec.affinity.Some? && pod.spec.affinity.value.node.Some?
    requires pod.spec.affinity.value.node.value.required.Some?
    requires forall t :: t in pod.spec.affinity.value.node.value.required.value ==>
      t.expressions.Some? && req in t.expressions.value
    ensures req.op == In ==> req.key in node.labels && node.labels[req.key] in req.values
    ensures req.op == NotIn ==> req.key !in node.labels || node.labels[req.key] !in req.values
    ensures req.op == Exists ==> req.key in node.labels
    ensures req.op == DoesNotExist ==> req.key !in node.labels
  {
    var terms := pod.spec.affinity.value.node.value.required.value;
    ConstraintsAdmit(pod, namespace, cluster, n);
    TermsAdmit(pod, terms, namespace, cluster, n);
    var i :| 0 <= i < |terms| && Admits(OnlyTerms(pod, [terms[i]]), namespace, cluster, n);
    TermAdmits(pod, terms[i], namespace, cluster, n);
    assert terms[i] in terms;
    var k :| 0 <= k < |terms[i].expressions.value| && terms[i].expressions.value[k] == req;
    assert OneExpression(pod, terms[i].expressions.value[k], namespace, cluster, n);
    RequirementAdmits(pod, req, namespace, cluster, n);
    ReadNode(cluster, n);
  }

  lemma SelectorRead(pod: Pod, labels: map<string, string>, namespace: string, cluster: Cluster, n: string)
    ensures Admits(OnlySelector(pod, labels), namespace, cluster, n) <==>
      && cluster.nodes.Some? && n in ByName(cluster.nodes.value)
      && forall k :: k in labels ==>
           var node := ByName(cluster.nodes.value)[n];
           k in node.labels && node.labels[k] == labels[k]
  {
  }

  lemma TermsRead(pod: Pod, terms: seq<Term>, namespace: string, cluster: Cluster, n: string)
    ensures Admits(OnlyTerms(pod, terms), namespace, cluster, n) <==>
      && cluster.nodes.Some? && n in ByName(cluster.nodes.value)
      && exists i :: 0 <= i < |terms| && MatchesTerm(ByName(cluster.nodes.value)[n], terms[i])
  {
    assert RequiredTerms(OnlyTerms(pod, terms).spec.affinity) == Some(terms);
  }

  lemma PodTermRead(pod: Pod, term: PodTerm, namespace: string, cluster: Cluster, n: string)
    ensures Admits(OnlyAnti(pod, term), namespace, cluster, n) <==>
      && cluster.nodes.Some? && n in ByName(cluster.nodes.value)
      && AntiHolds(term, namespace, cluster, ByName(cluster.nodes.value), n)
    ensures Admits(OnlyAffinity(pod, term), namespace, cluster, n) <==>
      && cluster.nodes.Some? && n in ByName(cluster.nodes.value)
      && AffinityHolds(term, namespace, cluster, ByName(cluster.nodes.value), n)
  {
    assert AntiTerms(OnlyAnti(pod, term)) == [term] && AffinityTerms(OnlyAnti(pod, term)) == [];
    assert AntiTerms(OnlyAffinity(pod, term)) == [] && AffinityTerms(OnlyAffinity(pod, term)) == [term];
    assert [term][0] == term;
  }

  // ---- placed pods ----------------------------------------------------------

  // The pod is on the node: scheduled there, or, unscheduled, with the first
  // single-valued field for a name in its required terms naming it.
  ghost predicate IsOn(q: Pod, m: string) {
    m != "" &&
    if q.spec.nodeName != "" then q.spec.nodeName == m
    else
      && q.spec.affinity.Some? && q.spec.affinity.value.node.Some? && q.spec.affinity.value.node.value.required.Some?
      && exists i :: IsFirstTermNaming(q.spec.affinity.value.node.value.required.value, i, m)
  }

  ghost predicate IsFirstTermNaming(terms: seq<Term>, i: int, m: string) {
    && 0 <= i < |terms| && terms[i].fields.Some? && (exists j :: IsFirstNaming(terms[i].fields.value, j, m))
    && forall h :: 0 <= h < i ==> !HasNamesOne(terms[h])
  }

  predicate NamesOne(f: Requirement) {
    f.key == "metadata.name" && f.op == In && |f.values| == 1
  }

  predicate HasNamesOne(t: Term) {
    t.fields.Some? && exists k :: 0 <= k < |t.fields.value| && NamesOne(t.fields.value[k])
  }

  lemma {:induction false} FirstPinMeans(fields: seq<Requirement>)
    ensures FirstPin(fields).None? <==> forall k :: 0 <= k < |fields| ==> !NamesOne(fields[k])
    ensures FirstPin(fields).Some? ==> exists j :: IsFirstNaming(fields, j, FirstPin(fields).value)
  {
    if fields != [] && !NamesOne(fields[0]) {
      FirstPinMeans(fields[1..]);
      assert forall k :: 1 <= k < |fields| ==> fields[k] == fields[1..][k - 1];
      if FirstPin(fields).Some? {
        var j :| IsFirstNaming(fields[1..], j, FirstPin(fields).value);
        assert IsFirstNaming(fields, j + 1, FirstPin(fields).value);
      }
    } else if fields != [] {
      assert IsFirstNaming(fields, 0, fields[0].values[0]);
    }
  }

  predicate IsFirstNaming(fields: seq<Requirement>, j: int, m: string) {
    && 0 <= j < |fields| && NamesOne(fields[j]) && fields[j].values[0] == m
    && forall k :: 0 <= k < j ==> !NamesOne(fields[k])
  }

  lemma {:induction false} FirstPinOfTermsMeans(terms: seq<Term>, m: string)
    ensures FirstPinOfTerms(terms) == Some(m) <==> exists i :: IsFirstTermNaming(terms, i, m)
  {
    if terms != [] {
      var fields, rest := Listed(terms[0].fields), terms[1..];
      FirstPinMeans(fields);
      FirstPinOfTermsMeans(rest, m);
      assert HasNamesOne(terms[0]) <==> FirstPin(fields).Some?;
      if FirstPin(fields) == Some(m) {
        assert IsFirstTermNaming(terms, 0, m);
      }
      if FirstPin(fields).None? && FirstPinOfTerms(rest) == Some(m) {
        var i :| IsFirstTermNaming(rest, i, m);
        assert forall h :: 1 <= h < i + 1 ==> terms[h] == rest[h - 1];
        assert IsFirstTermNaming(terms, i + 1, m);
      }
      if i :| IsFirstTermNaming(terms, i, m) {
        if i > 0 {
          assert forall h :: 0 <= h < i - 1 ==> rest[h] == terms[h + 1];
          assert IsFirstTermNaming(rest, i - 1, m);
        }
      }
    }
  }

  lemma PlaceMeans(q: Pod, m: string)
    ensures IsOn(q, m) <==> m != "" && PodNodeName(q) == m
  {
    if RequiredTerms(q.spec.affinity).Some? {
      FirstPinOfTermsMeans(RequiredTerms(q.spec.affinity).value, m);
    }
  }

  // Some unfinished pod that the term selects, in its namespaces or else the
  // pod's own, is on a listed node with the value for the key.
  ghost predicate HasPod(term: PodTerm, namespace: string, cluster: Cluster, v: string) {
    exists ns, q, m, home ::
      && (if term.namespaces == [] then ns == namespace else ns in term.namespaces)
      && IsPlaced(cluster, (ns, term.selector), q, m, home)
      && term.topologyKey in home.labels && home.labels[term.topologyKey] == v
  }

  ghost predicate IsPlaced(cluster: Cluster, list: (string, Json), q: Pod, m: string, home: Node) {
    && list in cluster.lists && q in cluster.lists[list]
    && q.phase != "Succeeded" && q.phase != "Failed"
    && IsOn(q, m) && IsListed(cluster, m, home)
  }

  lemma OccupiedMeans(term: PodTerm, namespace: string, cluster: Cluster, v: string)
    requires cluster.nodes.Some?
    ensures Occupied(term, namespace, cluster, ByName(cluster.nodes.value), v) <==>
      HasPod(term, namespace, cluster, v)
  {
    if Occupied(term, namespace, cluster, ByName(cluster.nodes.value), v) {
      OccupiedHasPod(term, namespace, cluster, v);
    }
    if HasPod(term, namespace, cluster, v) {
      PodOccupies(term, namespace, cluster, v);
    }
  }

  lemma OccupiedHasPod(term: PodTerm, namespace: string, cluster: Cluster, v: string)
    requires cluster.nodes.Some? && Occupied(term, namespace, cluster, ByName(cluster.nodes.value), v)
    ensures HasPod(term, namespace, cluster, v)
  {
    var nodes, namespaces := ByName(cluster.nodes.value), NamespacesOf(term, namespace);
    var i, j :| 0 <= i < |namespaces| && (namespaces[i], term.selector) in cluster.lists &&
      0 <= j < |cluster.lists[(namespaces[i], term.selector)]| &&
      Occupies(cluster.lists[(namespaces[i], term.selector)][j], term.topologyKey, nodes, v);
    var q := cluster.lists[(namespaces[i], term.selector)][j];
    PlaceMeans(q, PodNodeName(q));
    ReadNode(cluster, PodNodeName(q));
    assert IsPlaced(cluster, (namespaces[i], term.selector), q, PodNodeName(q), nodes[PodNodeName(q)]);
  }

  lemma PodOccupies(term: PodTerm, namespace: string, cluster: Cluster, v: string)
    requires cluster.nodes.Some? && HasPod(term, namespace, cluster, v)
    ensures Occupied(term, namespace, cluster, ByName(cluster.nodes.value), v)
  {
    var namespaces := NamespacesOf(term, namespace);
    var ns, q, m, home :| (if term.namespaces == [] then ns == namespace else ns in term.namespaces) &&
      IsPlaced(cluster, (ns, term.selector), q, m, home) &&
      term.topologyKey in home.labels && home.labels[term.topologyKey] == v;
    PlaceMeans(q, m);
    ReadNode(cluster, m);
    var i :| 0 <= i < |namespaces| && namespaces[i] == ns;
    var j :| 0 <= j < |cluster.lists[(ns, term.selector)]| && cluster.lists[(ns, term.selector)][j] == q;
    assert Occupies(cluster.lists[(namespaces[i], term.selector)][j], term.topologyKey,
                    ByName(cluster.nodes.value), v);
  }

  // A required anti-affinity term keeps the pod out of every domain such a pod
  // is in; an affinity term keeps it in one. A term without a key says nothing.
  lemma PodTermAdmits(pod: Pod, term: PodTerm, namespace: string, cluster: Cluster, n: string)
    ensures Admits(OnlyAnti(pod, term), namespace, cluster, n) <==>
      exists node :: IsListed(cluster, n, node) &&
        (term.topologyKey != "" && term.topologyKey in node.labels ==>
           !HasPod(term, namespace, cluster, node.labels[term.topologyKey]))
    ensures Admits(OnlyAffinity(pod, term), namespace, cluster, n) <==>
      exists node :: IsListed(cluster, n, node) &&
        (term.topologyKey != "" ==>
           term.topologyKey in node.labels && HasPod(term, namespace, cluster, node.labels[term.topologyKey]))
  {
    ReadNode(cluster, n);
    PodTermRead(pod, term, namespace, cluster, n);
    if cluster.nodes.Some? && n in ByName(cluster.nodes.value) {
      var node := ByName(cluster.nodes.value)[n];
      if term.topologyKey in node.labels {
        OccupiedMeans(term, namespace, cluster, node.labels[term.topologyKey]);
      }
    }
  }

  // The filter fails when the nodes could not be listed, or the label selector of
  // a required pod term that has a key does not parse.
  lemma FilterFailsExactly(pod: Pod, cluster: Cluster)
    ensures CanFilter(pod, cluster) <==>
      && cluster.nodes.Some?
      && (pod.spec.affinity.Some? ==>
            var a := pod.spec.affinity.value;
            && (a.anti.Some? ==> Parse(a.anti.value.required, cluster))
            && (a.pod.Some? ==> Parse(a.pod.value.required, cluster)))
  {
  }

  predicate Parse(terms: seq<PodTerm>, cluster: Cluster) {
    forall t :: t in terms && t.topologyKey != "" ==> t.selector !in cluster.badSelectors
  }
}
