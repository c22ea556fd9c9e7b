// The parts of pods and nodes that the webhook reads or patches. Every object
// also carries, in a field called rest, the members the webhook never looks at.
module Pods {
  import opened Basics
  import opened Json

  type Members = map<string, Json>

  datatype Operator = In | NotIn | Exists | DoesNotExist | Other(name: string)

  // corev1.NodeSelectorRequirement
  datatype Requirement = Requirement(key: string, op: Operator, values: seq<string>)

  // corev1.NodeSelectorTerm
  datatype Term = Term(expressions: Option<seq<Requirement>>, fields: Option<seq<Requirement>>)

  datatype NodeAffinity = NodeAffinity(required: Option<seq<Term>>, rest: Members)

  // corev1.PodAffinityTerm
  datatype PodTerm = PodTerm(topologyKey: string, selector: Json, namespaces: seq<string>)

  // corev1.PodAffinity and corev1.PodAntiAffinity
  datatype PodTerms = PodTerms(required: seq<PodTerm>, rest: Members)

  datatype Affinity = Affinity(node: Option<NodeAffinity>, pod: Option<PodTerms>, anti: Option<PodTerms>)

  // An entry of a container's resources.claims
  datatype ClaimRef = ClaimRef(name: string, request: string)

  datatype Resources = Resources(
    requests: Option<map<string, int>>, limits: Option<map<string, int>>, claims: Option<seq<ClaimRef>>)

  datatype Container = Container(resources: Resources, rest: Members)

  // corev1.PodResourceClaim
  datatype PodClaim = PodClaim(name: string, template: Option<string>, rest: Members)

  datatype Meta = Meta(annotations: Option<map<string, string>>, rest: Members)

  datatype Spec = Spec(
    nodeName: string, nodeSelector: Option<map<string, string>>, affinity: Option<Affinity>,
    resourceClaims: Option<seq<PodClaim>>, containers: seq<Container>, rest: Members)

  datatype Pod = Pod(meta: Meta, spec: Spec, phase: string, rest: Members)

  datatype Node = Node(name: string, labels: map<string, string>)
}
