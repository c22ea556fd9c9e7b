# Verified model of the DRA admission webhook

This project models, in Dafny, the parts of the dynamic-resource-allocation
admission webhook whose correctness is not visible from any one function, and
proves what they promise.

- **The reservation allocator** (`Ledger`, `Scan`, `Selection`, `Constraints`,
  `Allocator`, `Decisions`, `NodeRules`). A class with the program's timed `pending` map and string keys, a
  clock that never runs back, and a history of its calls. Map ranges visit keys in
  any order and `sort.Slice` leaves ties in any order. Every reachable map is the
  replay of a *run*: the calls made so far, each admitted by the entries still alive
  when it started. Double booking, expiry and the shape of extended-resource
  reservations are theorems about runs; what one call grants, and exactly when it
  refuses, is the contract of its method. `Decisions` and `NodeRules` say the same of
  the slices, attributes, claims, labels and placed pods that the API server lists.
- **The mutator as a compiler** (`Json`, `Pods`, `PodJson`, `Builders`, `Batches`,
  `Requests`, `ClaimNames`, `Templates`, `Mutator`, `PairShares`, `ClaimShares`,
  `Documents`, `Pinning`, `Exclusion`). Pods are JSON documents, and an interpreter for
  JSON Patch (sections 4.1 and 4.2 of RFC 6902) with JSON pointers (RFC 6901) gives the
  emitted operations a meaning. The patch is
  proved to turn the document of the pod into the document of the intended pod. A pod
  is patched exactly when its count is acceptable, the allocator grants it a node and
  no template of a wanted name diverges.
- **The debounced queue** (`QueueSteps`, `Queue`). A protocol of atomic steps over all
  interleavings of arrivals, timers and `processBatch` goroutines, and the class whose
  locked sections are those steps.
- **The orphan reconciler** (`Orphans`, `Passes`, `Response`, `StateStore`,
  `Reconciling`). The record life cycle, what a pass concludes from what the API
  server answers, and what follows over whole runs of passes.
- **The InfiniBand preflight estimate** (`Preflight`): the bound on its rounding.

`Basics`, `Text`, `Words`, `Sorting` and `StringOrder` hold the options, results and
clock, the string scanning and the two sorts that these share.

Some of what the proofs establish is not what the comments in the program say, or
holds only under a condition. The program is modelled as it is, and the exact
condition is proved.

- The operation at `internal/webhook/mutator.go:664` appends to `/matchFields/-`, so
  the patch of a pod with required node-selector terms applies if and only if each of
  them already has a `matchFields` array (`Builders.BuildNodeAffinityPatch`,
  `Mutator.Mutator.Mutate`). Otherwise the whole patch fails.
- `q.timer = nil` at `internal/webhook/queue.go:114` may forget a timer that is still
  armed. An arrival restarts the debounce wait, as the comment at lines 83-86 says it
  always does, all along a run if and only if no goroutine leaves with a timer armed
  (`QueueSteps.RestartsExactlyIfCleanExits`). One may: `QueueSteps.ForgottenTimer` is
  such a run.
- An explicit reservation `node:explicit:i` is read by `Allocate` as rail 0 of the
  node (`Ledger.ExplicitReadsAsRailZero`), and `ext:class:node:i` as a rail of a node
  called `ext`. `Ledger.BlockedIsGranted` says exactly which rails are held back.
- Indices of extended-resource reservations restart at 0, so what is remembered is
  the largest grant within the time-to-live, not the sum (`Ledger.HeldIsLargestGrant`,
  `Allocator.SumIsNotKept`).
- The InfiniBand selector asks for RDMA whatever `rdmaRequired` says; scan and
  selectors agree if and only if the rails are well formed in the sense of
  `Scan.AgreementCondition`.
- The scan of explicit pairs looks for the device class and the value of a role, and
  neither for the role nor for the rail selectors that the NIC request of the claim
  carries as well. A usable pair has a device for a role on every node if and only if
  every role of the pairing with the same class stands for it: it names the same
  attribute and, on the NIC, the value settles what the rail asks
  (`Templates.UsableIsClaimableExactly`). A role with a class of its own has a reporting
  device; it is accepted unless it is the NIC and does not suit the pair's rail
  (`Templates.UsableRoleHasDevice`). The validation at
  `internal/webhook/config.go:228-296` asks neither.
  `Templates.SharedClassWithoutDevice` and `Templates.UsablePairWithoutDevice` are
  usable pairs whose claims no device fits.
- Explicit pairs keep two pods off one device only where the configured pairs name
  different devices for a role, which that validation does not check either
  (`Exclusion.ValuesDecide`, `Exclusion.PodsShareNoDevice`).
- The new claims of a patched pod have names of their own if and only if
  `escapeClaimName` keeps the intercepted resources apart
  (`ClaimShares.PatchedPodClaims`); it does not keep all apart
  (`ClaimNames.EscapeCollides`).
- A small single-zone grant leaves a node's largest zone whole where another zone could
  host it, provided that no other zone lists a granted rail
  (`Selection.SmallGrantKeepsLargestZone`). Where one does, the claim fails
  (`Selection.SharedRailShrinksLargestZone`). `Selection.LargestShrinksExactly` says
  when the largest zone shrinks.
- `podNodeName` returns the first single-valued field of the first term that has one,
  so an earlier pin hides the mutator's (`Pinning.PinnedPodIsRead`,
  `Pinning.FirstTermHidesPin`).
- When the pods of a namespace cannot be listed, its templates count as unreferenced
  (`Response.FailedListHidesReference`); reap safety therefore speaks of what
  the passes could list.
- A pod whose pair requests sum to a negative number, with nothing intercepted, is not
  refused but always patched, and pinned to a node without a name
  (`Mutator.OwingPodIsPatched`; `Mutator.NegativePairs` is one). A patched pod has a
  named node if and only if it asks for a positive number of pairs or for an intercepted
  resource (`Mutator.PatchedNode`).

Quantities are integers. Node and class names contain no `:` and namespaces no `/`
where a lemma says so; these are Kubernetes naming rules.

## Model

| member | source | states |
|---|---|---|
| Ledger.LedgerExact | internal/webhook/allocator.go:86-93 | over any run, a key is alive at a time exactly when some call wrote it no longer than the time-to-live before: nothing is forgotten early, nothing lingers |
| Ledger.StampIsLastWrite | internal/webhook/allocator.go:159-163 | the time stored with a key is that of the last call that wrote it |
| Ledger.NoDoubleBooking | internal/webhook/allocator.go:98-177 | two `Allocate` grants on a node, the later starting within the time-to-live of the earlier reservation, have no rail in common |
| Ledger.NoDoubleBookingExplicit | internal/webhook/allocator.go:181-306 | the same for pair indices granted by `AllocateExplicit` |
| Ledger.BlockedIsGranted | internal/webhook/allocator.go:112-129 | the rails `Allocate` holds back on a node are exactly those granted there within the time-to-live, and rail 0 when an explicit grant is that recent |
| Ledger.ExplicitReadsAsRailZero | internal/webhook/allocator.go:112-129 | the key of an explicit reservation is read as rail 0 of its node |
| Ledger.ExtReadsAsNodeExt | internal/webhook/allocator.go:112-129 | the key of an extended-resource reservation is read as naming a node `ext` |
| Ledger.BookedAgainAfterExpiry | internal/webhook/allocator.go:86-93 | the window is exact: once every stamp is older than the time-to-live, any rails may be granted again |
| Ledger.HeldIsLargestGrant | internal/webhook/allocator.go:436-466 | the keys held for a class on a node are always the indices 0 to k-1, where k is the largest single grant there within the time-to-live |
| Ledger.LargestGrantBounds | internal/webhook/allocator.go:436-466 | an index lies below that largest grant exactly when some grant within the time-to-live exceeded it |
| Ledger.StampsDescend | internal/webhook/allocator.go:458-461 | along those indices the stamps never increase |
| Allocator.Allocator.ClearPending | internal/webhook/allocator.go:78-82 | empties the map and starts a new run |
| Allocator.Allocator.ExpirePending | internal/webhook/allocator.go:86-93 | whatever the map order, exactly the entries no older than the time-to-live remain |
| Allocator.Allocator.RemovePending | internal/webhook/allocator.go:111-129 | whatever the map order, each node keeps exactly the slots whose rail no pending key names |
| Allocator.Allocator.SelectRails | internal/webhook/allocator.go:732-778 | enough rails exactly when one zone, or the node, can supply them, and then a selection from the preferred zone |
| Allocator.Allocator.ChooseRails | internal/webhook/allocator.go:131-176 | succeeds exactly when a feasible node exists, and then on one with the fewest free slots |
| Allocator.Allocator.Allocate | internal/webhook/allocator.go:98-177 | fails exactly when no admissible node can supply the request once reservations are taken away; otherwise grants a best-fitting node a selection of its free rails and records it |
| Allocator.Allocator.ReserveRails | internal/webhook/allocator.go:159-163 | the reservation extends the run by the grant |
| Allocator.Allocator.ListCandidates | internal/webhook/allocator.go:209-241 | the candidates are exactly the listed, matching nodes with enough free pairs, with all those pairs in order |
| Allocator.Allocator.ChoosePairs | internal/webhook/allocator.go:243-305 | succeeds exactly when some node can give the pairs, and then on one with the fewest free pairs |
| Allocator.Allocator.AllocateExplicit | internal/webhook/allocator.go:181-306 | fails exactly when no admissible node can give the pairs; otherwise a best-fitting node gives free, distinct pairs, described and recorded |
| Allocator.Allocator.ReservePairs | internal/webhook/allocator.go:282-293 | the pairs are described in order and the reservation extends the run |
| Allocator.Allocator.SubtractHeld | internal/webhook/allocator.go:436-450 | whatever the map order, a node loses one device for each key of the class held there, never going below zero by that |
| Allocator.Allocator.ChooseNode | internal/webhook/allocator.go:468-504 | succeeds exactly when some admissible node has enough devices, and then on one with the fewest |
| Allocator.Allocator.AllocateExtendedResource | internal/webhook/allocator.go:425-505 | with a node given, its count alone decides; otherwise fails exactly when no admissible node has enough devices and else takes one with the fewest; the event records what the scan counted there |
| Allocator.Allocator.ReserveDevices | internal/webhook/allocator.go:494-497 | stamps the first indices of the class on the node and extends the run |
| Allocator.GrantFitsBesideLargest | internal/webhook/allocator.go:436-466 | behind every grant of devices the slices listed, less what claims use, at least its count on top of the largest grant still remembered |
| Allocator.SumIsNotKept | internal/webhook/allocator.go:425-505 | after any number of calls that were granted one device each on a node with two, the next is granted one too, as the scan and the count of held keys decide: outstanding reservations are not summed |
| Decisions.DevicesGrantedExactly | internal/webhook/allocator.go:510-551 | devices are granted exactly when the node given, or else some admissible one, has as many places of the class in its slices, less claims that hold one there and less reservations, as asked; and then on such a node |
| Decisions.NoneLeft | internal/webhook/allocator.go:530-545 | nothing is granted on a node where claims hold as many devices as are listed |
| Decisions.GrantHasRoom | internal/webhook/allocator.go:436-466 | over a run: behind every grant, the places listed less those in claims were at least its count on top of the largest grant still remembered |
| Decisions.DevicesBestFit | internal/webhook/allocator.go:468-504 | of the admissible nodes with room the one with the least left is taken |
| Decisions.RailsGrantedWhenServed | internal/webhook/allocator.go:98-177 | rails are granted as soon as an admissible node has, on one NUMA node if that is asked, as many unused network devices whose attributes give them unreserved rails only |
| Decisions.RailsRefusedUnlessServed | internal/webhook/allocator.go:732-778 | they are refused when no admissible node has, on any one NUMA node if that is asked, as many unused network devices whose attributes give them some unreserved rail |
| Decisions.MayIsMust | internal/webhook/allocator.go:563-693 | where the configured rails are apart those two sets of devices are the same |
| Decisions.GrantedRailsAreServed | internal/webhook/allocator.go:563-693 | every granted rail is unreserved and given, by address or PCI address and RDMA, to an unused network device of the node, all on one NUMA node if that is asked, where a device that tells none counts as on -1 |
| Decisions.RailsBestFit | internal/webhook/allocator.go:131-176 | of the admissible nodes that could serve the request the one with the fewest devices left is taken, where the rails are apart |
| Decisions.PairsGrantedExactly | internal/webhook/allocator.go:181-306 | explicit pairs are granted exactly when a listed, matching, admissible node's pool has as many usable unreserved pairs, of one NUMA node if that is asked |
| Decisions.PairsBestFit | internal/webhook/allocator.go:243-305 | and then on one with the fewest of them |
| Decisions.UsableMeans | internal/webhook/allocator.go:352-420 | a pair is usable exactly when for each of its values a device of the node has it as a string under the attribute of a role of the same class, from that role's driver, and for the NIC role with an interface name and RDMA if required |
| Allocator.GrantedRails | internal/webhook/allocator.go:104-163 | granted rails are configured, none is reserved, each is one a claim can be satisfied with on the node by an unused device, and none repeats when the scan lists each rail once |
| Allocator.RailsGranted | internal/webhook/allocator.go:98-177 | the rails an `Allocate` decision grants are on a named, admissible node, as many as asked, configured, unreserved, and none twice when each is offered by one device only |
| Allocator.PairsGranted | internal/webhook/allocator.go:181-306 | the pairs an `AllocateExplicit` decision grants are as many different ones as asked of the pool of a listed, admissible node, all usable there and unreserved |
| Allocator.SelectedPairsFresh | internal/webhook/allocator.go:310-348 | selected pair indices are free and never repeat |
| Selection.Select | internal/webhook/allocator.go:310-348 | the first ids of the smallest zone that is large enough below the zone capacity, of the largest otherwise, of all zones when not constrained; none exactly when no zone is large enough |
| Selection.SelectionPacks | internal/webhook/allocator.go:726-778 | a single-zone selection comes from a zone with enough items, counted as places: the smallest such below the zone capacity, the largest otherwise |
| Selection.SmallGrantKeepsLargestZone | internal/webhook/allocator.go:726-778 | where no other zone lists a granted rail, a small single-zone grant shrinks a node's largest zone only when just one zone could host it |
| Selection.LargestShrinksExactly | internal/webhook/allocator.go:111-129 | whatever is taken off a node, its largest zone shrinks exactly when every zone of that size listed a taken rail |
| Allocator.GrantTakesItems | internal/webhook/allocator.go:111-129 | what the next call sees of a node, once reservations are removed, is what this call saw without the rails it grants |
| Allocator.NextCallSeesLargestZone | internal/webhook/allocator.go:726-778 | so a small single-zone grant shrinks the largest zone the next call sees only when just one zone could host it, where no other zone lists a granted rail |
| Selection.SharedRailShrinksLargestZone | internal/webhook/allocator.go:726-778 | with one rail listed in two zones, a small grant from the smaller shrinks the larger, though either could host it |
| Constraints.FilterNodesByConstraints | internal/webhook/allocator.go:783-831 | exactly the named nodes that meet the selector, the node affinity and every pod term, each once, in any order of maps and terms; an error exactly when nodes cannot be listed or a selector in use does not parse |
| Constraints.FilterByPodAntiAffinity | internal/webhook/allocator.go:944-1013 | keeps exactly the candidates outside every domain that a selected, unfinished pod occupies |
| Constraints.FilterByPodAffinity | internal/webhook/allocator.go:1017-1082 | keeps exactly the candidates that for every term lie in a domain such a pod occupies |
| Constraints.OccupiedTopologyValues | internal/webhook/allocator.go:944-1013 | the topology values of all listed, unfinished pods with a known node |
| NodeRules.RequirementAdmits | internal/webhook/allocator.go:878-906 | a pod whose only constraint is one requirement on labels is admitted exactly on the listed nodes whose labels have the key with a listed value, lack it or have another, have the key, or lack it, by operator |
| NodeRules.FieldAdmits | internal/webhook/allocator.go:909-940 | one requirement on fields: only the node's name counts, for In and NotIn |
| NodeRules.SelectorAdmits | internal/webhook/allocator.go:835-845 | a node selector admits exactly the listed nodes with its labels |
| NodeRules.PodTermAdmits | internal/webhook/allocator.go:944-1082 | one pod term: anti-affinity keeps out of, and affinity in, the domains where an unfinished pod that the term lists is scheduled or pinned |
| NodeRules.PlaceMeans | internal/webhook/allocator.go:1088-1106 | a pod is on the node it is scheduled to, or else on the one that the first single-valued field for a name in its required terms names |
| NodeRules.TermAdmits | internal/webhook/allocator.go:864-876 | a term admits what all its requirements admit |
| NodeRules.TermsAdmit | internal/webhook/allocator.go:847-862 | terms admit what some term admits |
| NodeRules.ConstraintsAdmit | internal/webhook/allocator.go:783-831 | a pod is admitted exactly where its selector, its terms and each of its pod terms, taken alone, admit it |
| NodeRules.SharedRequirementIsMet | internal/webhook/allocator.go:878-906 | a requirement that every required term carries is met by the labels of every admitted node |
| NodeRules.FilterFailsExactly | internal/webhook/allocator.go:783-831 | the filter fails exactly when nodes cannot be listed or the selector of a required pod term with a key does not parse |
| Scan.ScanAvailableSlots | internal/webhook/allocator.go:556-693 | one slot, with a rail the address allows, for each device of a node that can be offered, in order, and no other |
| Scan.Examine | internal/webhook/allocator.go:563-693 | a device is passed over exactly when no rail can be offered for it |
| Scan.PoolOf | internal/webhook/config.go:198-212 | the first pool of the node's label value, and none only when no pool has it |
| Scan.ScanExplicitAvailability | internal/webhook/allocator.go:352-420 | in increasing order, exactly the pairs all of whose devices are reported on the node |
| Scan.ScanAvailableDevices | internal/webhook/allocator.go:510-551 | per node, listed devices of the class minus devices in claims |
| Scan.BuildNICSelectors | internal/webhook/claim_builder.go:30-97 | the selectors accept exactly the devices that fit the rail: address prefix and RDMA as configured on Ethernet, RDMA and PCI address on InfiniBand, and on a rail that is not configured any device, with RDMA, and on InfiniBand its encapsulation, if required |
| Scan.SelectorMeaning | internal/webhook/claim_builder.go:30-97 | the same of the selectors as a function, for every rail and every device |
| Scan.AgreementCondition | internal/webhook/claim_builder.go:30-97 | scan and selectors agree on every device and rail, with no choice left to map order, exactly when prefixes are non-empty and prefix-free, or addresses non-empty and distinct with `rdmaRequired` as soon as there is a rail |
| Scan.OfferedRailIsClaimable | internal/webhook/allocator.go:563-693 | a rail the scan offers is accepted by the claim for it, on an unused device of that node and zone |
| Exclusion.RailsAreExclusive | internal/webhook/claim_builder.go:301-363 | templates made for different rails accept no common network device exactly when no prefix begins another, or, on InfiniBand, the addresses differ |
| Exclusion.GPUsAreExclusive | internal/webhook/claim_builder.go:99-116 | nor a common GPU exactly on InfiniBand with different GPU addresses, as soon as there are two rails |
| Exclusion.PodsShareNoNIC | internal/webhook/mutator.go:136-153 | the templates of two pods granted one node within the time-to-live, as the mutator makes them, accept no common network device where the rails are apart, and no common GPU where InfiniBand pins different ones |
| Exclusion.PodClaimsAreExclusive | internal/webhook/mutator.go:142-153 | neither do two templates of one pod, when each rail is offered by one device of the node |
| Exclusion.GrantedPairIsClaimable | internal/webhook/mutator.go:112-130 | on the granted node, the template for a granted pair has a device for each role whose class serves it |
| Exclusion.ValuesDecide | internal/webhook/claim_builder.go:392-444 | the requests of two explicit pairs for a role other than the NIC accept no common device exactly when the pairs name different ones; on the NIC naming different ones suffices |
| Exclusion.PodsShareNoDevice | internal/webhook/mutator.go:112-130 | the templates of two pods granted explicit pairs of one node within the time-to-live accept no common device for a role whose devices the pool names once |
| Exclusion.PodPairsAreExclusive | internal/webhook/mutator.go:112-130 | neither do two templates of one pod |
| Json.EscapeJSONPointer | internal/webhook/mutator.go:692-705 | the loop computes the escape function of the lemmas below |
| Json.EscapeRoundTrip | internal/webhook/mutator.go:692-705 | the two ordered substitutions of section 4 of RFC 6901 undo escaping on every string, and an escaped string holds no slash |
| Json.EscapeInjective | internal/webhook/mutator.go:692-705 | no two strings share an escaped form |
| Json.ReversedOrderUndoesExactly | internal/webhook/mutator.go:692-705 | in the other order the substitutions undo escaping exactly on the strings without a `~1` |
| Json.TokensOfPointer | internal/webhook/mutator.go:543-608 | a path built by joining escaped names is read back as those names |
| PodJson.AppendField | internal/webhook/mutator.go:655-668 | appending to the `matchFields` of a term works exactly when the term has that array |
| Builders.BuildResourceRemovalPatches | internal/webhook/mutator.go:543-561 | on the pod as patched so far, the operations apply and take the resource off requests and limits of the listed containers |
| Builders.BuildPodClaimPatches | internal/webhook/mutator.go:566-584 | the operations apply and add the claims behind those already there, whether or not the list existed |
| Builders.BuildContainerClaimRefPatches | internal/webhook/mutator.go:589-608 | the operations apply and add the references behind those of the container |
| Builders.BuildNodeAffinityPatch | internal/webhook/mutator.go:614-671 | the operations pin every required term to the node if each has a `matchFields` array, and otherwise do not apply |
| Builders.PinEachTerm | internal/webhook/mutator.go:653-669 | the same for the loop over existing terms |
| Builders.BuildMutatedAnnotationPatch | internal/webhook/mutator.go:674-687 | the operation applies and sets the annotation, whether or not there were annotations |
| Batches.EmitBatch | internal/webhook/mutator.go:161-188 | after any earlier batches, the operations for a resource apply and make exactly the intended change |
| Batches.BatchesEffect | internal/webhook/mutator.go:97-264 | over all batches: old claims then new claims, each container's old references then its new ones, exactly the listed resources gone, everything else unchanged |
| Batches.InTurnIsBatch | internal/webhook/mutator.go:161-188 | stripping, adding claims and adding references container by container is the batch as a whole |
| Requests.ExtractGPUNICPairCount | internal/webhook/mutator.go:391-424 | the sum of the requests and exactly the containers that name the resource |
| Requests.ExtractInterceptedResources | internal/webhook/mutator.go:429-481 | one entry for each intercepted resource asked for, with each container's positive amount, in container order |
| Requests.SumOfOne | internal/webhook/mutator.go:391-424 | one container counts with what its requests say of the resource |
| Requests.SumJoins | internal/webhook/mutator.go:391-424 | the sum over two lists of containers is that of the two sums |
| Requests.ExtractionMeans | internal/webhook/mutator.go:429-481 | there is an entry for a resource exactly when it is intercepted and some container's requests have a positive amount of it; it has the configured class and, for each such container, that amount |
| ClaimNames.AvoidCollision | internal/webhook/mutator.go:236-241 | terminates, with the first of base, base-x, base-x-x, ... that is free |
| ClaimNames.NameClaims | internal/webhook/mutator.go:230-246 | every claim takes the first free name from its base, given the pod's claims and the names before it |
| ClaimNames.NamesAreFresh | internal/webhook/mutator.go:230-246 | new names are none of the pod's own and differ from each other |
| ClaimNames.NameDecodes | internal/webhook/mutator.go:237-240 | a claim name determines the escaped resource, the index and the number of suffixes |
| ClaimNames.ResourcesShareNoName | internal/webhook/mutator.go:230-246 | names for two resources are disjoint exactly when the resources escape differently |
| ClaimNames.EscapeClaimName | internal/webhook/mutator.go:377-387 | slashes and dots become dashes, all else stays |
| ClaimNames.EscapeCollides | internal/webhook/mutator.go:377-387 | two different resource names that escape to the same string |
| ClaimShares.PatchedPodClaims | internal/webhook/mutator.go:191-264 | the patched pod has its claims and then new ones, none named as one it had, and no two alike exactly when the resources differ once escaped; its containers lose in requests and limits exactly the resources they ask a positive amount of, and have their references and then new ones, which then are shared out as the next row says |
| ClaimShares.BatchesShareOut | internal/webhook/mutator.go:248-263 | for every resource each container gets as many references as its requests say, every new claim goes to a container and to no other, and no container references one twice |
| ClaimShares.NewNamesDiffer | internal/webhook/mutator.go:230-246 | over all resources of a pod: no new name is one it had, and all differ exactly when the resources differ once escaped |
| ClaimShares.InterceptedTemplates | internal/webhook/mutator.go:193-215 | behind the claims for a resource stand as many devices of its class, granted on the node, and for each claim a template in the store with one request for one device of the class |
| Templates.TemplateStore.Ensure | internal/webhook/mutator.go:507-539 | succeeds exactly when no template of that name has another spec, and then the template exists |
| Templates.TemplateStore.EnsureAll | internal/webhook/mutator.go:206-215 | succeeds exactly when no template diverges from the store or from another of the list, and then the store is the old one with all of them; otherwise with exactly those before the first that diverges |
| Templates.UsableDeviceAccepted | internal/webhook/claim_builder.go:392-444 | a device that reports the pair's value under a role is accepted for the role; for the NIC exactly when it suits the pair's rail: the address prefix on Ethernet, RDMA and the PCI address on InfiniBand, and on a rail that is not configured nothing, or on InfiniBand the encapsulation if RDMA is required |
| Templates.UsableIsClaimableExactly | internal/webhook/allocator.go:352-420 | for a role, a value and a rail: on every node every usable, valid pair has an accepted device exactly when every role of the class stands for the role, or some class never reports so that no pair is usable |
| Templates.UsableRoleHasDevice | internal/webhook/allocator.go:352-420 | a role with a class of its own has, for a usable pair, a device on the node that reports the value under it, accepted exactly as above |
| Templates.UsablePairWithoutDevice | internal/webhook/allocator.go:352-420 | a pair the scan counts as usable whose NIC claim accepts no device of the node |
| Templates.SharedClassWithoutDevice | internal/webhook/allocator.go:395-404 | two roles of one class, and a usable pair whose request for one of them accepts no device of the node |
| Templates.BuildSinglePairClaimSpec | internal/webhook/claim_builder.go:301-363 | a GPU and a NIC request; the NIC request accepts exactly the devices that fit the rail |
| Templates.BuildExplicitPairClaimSpec | internal/webhook/claim_builder.go:392-444 | one request per role, in order, each accepting exactly the devices with the pair's value, and on the NIC those that fit the rail as well |
| Templates.AgreeConcat | internal/webhook/mutator.go:206-215 | ensuring two lists of templates one after the other succeeds exactly when ensuring the joined list does, with the same store |
| Mutator.HandoutIsExact | internal/webhook/mutator.go:250-263 | each container gets exactly as many claims as it asked for, and together they hold every new claim once, in order |
| Mutator.NoSharedClaim | internal/webhook/mutator.go:250-263 | no claim is referenced from two places |
| Templates.DeviceSelectorKeys | internal/webhook/config.go:214-225 | the roles of the pairing, each once, in order, whatever the map order |
| Templates.RolesUnique | internal/webhook/config.go:214-225 | the order leaves no choice: two calls give the same roles |
| Mutator.Mutator.PlanPairs | internal/webhook/mutator.go:109-188 | fails exactly when the allocator refuses or a template of a wanted name diverges; otherwise the node is admissible, the templates are those of the grant and exist, and the batch refers to all of them |
| Mutator.Mutator.GrantExplicit | internal/webhook/mutator.go:112-130 | fails exactly when no node can give the pairs; otherwise the specs pin the pairs at the granted indices of the pool of the granted node, one request per role |
| Mutator.Mutator.GrantRails | internal/webhook/mutator.go:135-153 | fails exactly when no node can supply the rails; otherwise the specs are those of the granted rails, which are configured and distinct when each is offered once |
| Mutator.Mutator.TemplatesForPairs | internal/webhook/mutator.go:119-130 | names and specs of the pairs, in order |
| Mutator.Mutator.TemplatesForRails | internal/webhook/mutator.go:142-153 | names and specs of the rails, in order |
| Mutator.Mutator.PlanIntercepted | internal/webhook/mutator.go:193-263 | fails exactly when the allocator refuses the devices or one of their templates diverges; otherwise they are reserved on the chosen or given node, the templates exist, and names and references are as the naming and handout lemmas require |
| Mutator.Mutator.HandOut | internal/webhook/mutator.go:250-263 | the loop over the claim offset computes the handout |
| Mutator.Mutator.MutateOne | internal/webhook/mutator.go:191-264 | one round of the loop over resources either goes through, and then extends operations, grants and templates by the resource, or is the first that does not |
| Mutator.Mutator.MutateIntercepted | internal/webhook/mutator.go:191-264 | goes through exactly when the allocator grants every request in turn and no template diverges, and stops at the first that does not; the operations of all requests together apply; all grants are on one node, which the first picked among admissible ones |
| Mutator.GrantsHadRoom | internal/webhook/mutator.go:191-264 | behind each of these grants the slices it was made from listed, less what claims held, its count on top of the largest grant still remembered |
| Mutator.Mutator.Finish | internal/webhook/mutator.go:266-270 | with pin and annotation appended the operations compile the plan |
| Mutator.Mutator.MutatePairs | internal/webhook/mutator.go:102-189 | patched exactly when the count is acceptable, the allocator grants a node and no wanted template diverges; then the patch compiles the plan, on an admissible node, with the templates of the granted pairs |
| PairShares.PatchedPairs | internal/webhook/mutator.go:155-188 | the patched pod has its claims and then one per granted pair, of different names, each from its template; every container that named the pair resource loses it in requests and limits and references every request of every new claim, each once and nothing else; no other container changes |
| PairShares.RailTemplates | internal/webhook/mutator.go:135-153 | the store has a template for each granted rail, in order: GPU and NIC of their classes, under one PCIe root or pinned to the rail's PCI addresses, the NIC with the rail's address prefix and RDMA as configured |
| PairShares.PairTemplates | internal/webhook/mutator.go:112-130 | the same for explicit pairs: a request per role, of its class, that accepts exactly the device the pair names, on the NIC if it fits the rail as well |
| PairShares.CountsTried | internal/webhook/validator.go:7-35 | the allocator is asked for pairs exactly when their number is positive, within the node and the configured rails, and within a NUMA node unless it fills the node or the annotation allows crossing |
| PairShares.RailsOnOneNUMANode | internal/webhook/mutator.go:136-142 | a pod that may not cross and does not fill a node is granted rails whose devices are on one NUMA node, unless packing is off |
| PairShares.PairsOnOneNUMANode | internal/webhook/mutator.go:112-130 | the same for explicit pairs, by their configured NUMA node |
| PairShares.LeftAloneExactly | internal/webhook/mutator.go:60-91 | a pod is left alone exactly when it carries the mark or no container asks for anything, and denied without a call when it asks for both kinds |
| Documents.PinShown | internal/webhook/mutator.go:614-671 | in the patched document every required term ends, under `matchFields`, with the requirement whose key is `metadata.name`, operator `In`, and only value the node |
| Documents.MarkShown | internal/webhook/mutator.go:674-687 | the annotation stands there as `true` |
| Documents.ClaimsShown | internal/webhook/mutator.go:566-584 | the document of a pod shows each claim's name and template |
| Documents.ReferencesShown | internal/webhook/mutator.go:589-608 | and each reference's claim and request |
| Documents.AmountsShown | internal/webhook/mutator.go:543-561 | and of each resource the amounts in requests and limits, or nothing where the container has none |
| Mutator.Mutator.Mutate | internal/webhook/mutator.go:60-271 | left alone exactly when already mutated or asking for nothing; denied when asking for both kinds; otherwise patched exactly when the one kind it asks for goes through, and then the patch yields exactly the target pod, or does not apply when a required term lacks `matchFields` |
| Mutator.OwingPodIsPatched | internal/webhook/mutator.go:78-103 | a pod whose pair requests sum below zero, with nothing intercepted and not yet mutated, is always patched, pinned to the empty node name, without a grant |
| Mutator.PatchedNode | internal/webhook/mutator.go:60-271 | a patched pod is pinned to a node with a name exactly when it asks for a positive number of pairs or for an intercepted resource, and then the node admits it |
| Mutator.NegativePairs | internal/webhook/mutator.go:78-103 | a pod whose one container asks for -1 pairs is such a pod |
| Mutator.Mutator.MutateExtOnly | internal/webhook/mutator.go:276-373 | the same for intercepted resources alone, leaving pairs in the pod: patched exactly when every request goes through |
| Pinning.PinIsIntersection | internal/webhook/mutator.go:614-671 | the patched affinity accepts a node exactly when the original did and it is the selected node |
| Pinning.TargetAcceptsOneNode | internal/webhook/allocator.go:802-811 | so it accepts exactly the selected node of the cluster, never none |
| Pinning.PinnedPodIsRead | internal/webhook/allocator.go:1088-1106 | a pinned, unscheduled pod is read as being on the selected node exactly when its first required term held no other single-valued name |
| Pinning.FirstTermHidesPin | internal/webhook/allocator.go:1088-1106 | a pod pinned to one node and read as being on another |
| Pinning.PinnedPodExcludesDomain | internal/webhook/allocator.go:944-1013 | a later pod with an anti-affinity term that lists what the patched pod has become, scheduled or not yet, is not admitted anywhere in the selected node's domain |
| QueueSteps.NoRequestIsStranded | internal/webhook/queue.go:80-122 | in every interleaving there is at most one drainer, the flag tells whether there is one, and a waiting request has a timer, a starting goroutine or a drainer |
| QueueSteps.ExactlyOnce | internal/webhook/queue.go:80-139 | in every interleaving the arrivals are exactly those waiting, in flight and answered, with multiplicity |
| QueueSteps.OneFate | internal/webhook/queue.go:80-139 | a request that arrived once has exactly one of these fates and at most one answer |
| QueueSteps.LargerFirst | internal/webhook/queue.go:124-137 | each drained batch is a permutation of what was taken, by falling count, answered in that order |
| QueueSteps.InvStep | internal/webhook/queue.go:80-139 | every step keeps the whole invariant, among it that batches are served in order of arrival |
| QueueSteps.WorkIsBounded | internal/webhook/queue.go:99-139 | an interleaving has at most seven further steps for each arrival |
| QueueSteps.DrainIsBounded | internal/webhook/queue.go:99-139 | once arrivals stop, the measure bounds the steps that remain |
| QueueSteps.StuckIsDone | internal/webhook/queue.go:99-139 | where only an arrival can happen, everything is answered, the flag is down and the timer cleared |
| QueueSteps.RestartsExactlyIfCleanExits | internal/webhook/queue.go:83-90 | arrivals restart the wait all along a run exactly when no goroutine left with a timer armed |
| QueueSteps.ForgottenTimer | internal/webhook/queue.go:110-119 | a run of nine steps at whose end a goroutine leaves with a timer armed; the next arrival does not stop it |
| Queue.MutationQueue.EnqueueFunc | internal/webhook/queue.go:80-91 | the locked section is the arrival step |
| Queue.MutationQueue.Begin | internal/webhook/queue.go:100-108 | the section at the head of `processBatch` is the check step |
| Queue.MutationQueue.TakeBatch | internal/webhook/queue.go:110-126 | the section of the drain loop with its sort is the drain or the exit step |
| Queue.MutationQueue.Serve | internal/webhook/queue.go:134-137 | sending one result is the delivery step |
| Queue.MutationQueue.ProcessBatch | internal/webhook/queue.go:99-139 | whatever others do in between, the loop ends, and a goroutine that drained leaves an empty batch, the flag down and every arrival answered |
| Orphans.OrphanKeyInjective | internal/reconciler/state.go:210-212 | different objects have different keys |
| Orphans.Accounting | internal/reconciler/state.go:106-208 | after any steps from a fresh state: detected = tracked + cleared + pruned, reaped = reaped records + pruned, hence reaped <= detected |
| Orphans.BalancedMarked | internal/reconciler/state.go:124-135 | marking keeps that balance because only a record that is not reaped is marked |
| Orphans.ActiveWasDetected | internal/reconciler/state.go:106-161 | an active record was made at its detection time by an orphan sighting, with no use seen since |
| Orphans.DeletionsWait | internal/reconciler/reconciler.go:200-237 | whatever is deleted was detected at least a grace period earlier and not seen in use since |
| Passes.ReapIsSafe | internal/reconciler/reconciler.go:58-242 | over runs of passes, with reaping on: a deletion has a detecting pass at least a grace period earlier, and no pass in between saw the object in use; templates and claims alike |
| Passes.TemplatesReapedSafely | internal/reconciler/reconciler.go:95-155 | for a template: in no pass since then, the deleting one included, that listed it and the pods of its namespace, was any claim of any of those pods made from it |
| Passes.ReferredIsUsed | internal/reconciler/reconciler.go:128-152 | a template that any claim of any listed pod is made from is found in use |
| Passes.ClaimsReapedSafely | internal/reconciler/reconciler.go:159-197 | for a claim: in no pass since then was the pod found that its first owner reference to a pod names, and the deleting one found that it names none or one that is gone |
| Passes.ClaimVerdictMeans | internal/reconciler/reconciler.go:167-193 | a claim made from a template is found in use exactly when the pod named by its first owner reference to a pod is found, and orphaned exactly when there is no such name or the pod is not found |
| Passes.StepsAreVerdicts | internal/reconciler/reconciler.go:137-196 | every step of a pass before pruning carries out a verdict about a listed object |
| Passes.VerdictIsCarried | internal/reconciler/reconciler.go:137-196 | every verdict is carried out by its own step |
| Response.DeletedInTime | internal/reconciler/reconciler.go:58-91 | whatever record exists at first, the deletion of an object every pass finds unused is asked for within PruneAfter + GracePeriod + 3 intervals |
| Response.ActiveIsDeleted | internal/reconciler/reconciler.go:209-215 | from an active record, within the grace period and one interval |
| Response.ReapedIsPruned | internal/reconciler/state.go:195-208 | a reaped record is gone within PruneAfter and one interval |
| Response.PassEffect | internal/reconciler/reconciler.go:58-91 | what one pass does to the record of an object it finds orphaned |
| Response.UnreferencedIsFound | internal/reconciler/reconciler.go:139-152 | a listed template is found unused exactly when no claim of a pod the pass could list is made from it |
| Response.FailedListHidesReference | internal/reconciler/reconciler.go:108-152 | a template that pods refer to is found unused in a pass that could not list the pods of its namespace |
| StateStore.StateManager.RecordOrphan | internal/reconciler/state.go:106-121 | a record is made and counted only when there is none |
| StateStore.StateManager.MarkReaped | internal/reconciler/state.go:124-135 | the record, if any, gets its reap time and is counted |
| StateStore.StateManager.ClearResolved | internal/reconciler/state.go:139-148 | only a record that is not reaped is removed |
| StateStore.StateManager.GetOrphan | internal/reconciler/state.go:151-161 | the record exactly when it is not reaped |
| StateStore.StateManager.UpdateReconciliationTime | internal/reconciler/state.go:178-184 | counts the pass and leaves the records alone |
| StateStore.StateManager.PruneReapedOlderThan | internal/reconciler/state.go:195-208 | removes and counts exactly the records reaped before the cutoff, whatever the map order |
| Reconciling.ReferenceSet | internal/reconciler/reconciler.go:108-135 | for each namespace that could be listed, exactly the template names its pods mention |
| Reconciling.Reconciler.HandleOrphaned | internal/reconciler/reconciler.go:199-242 | the state moves by one orphan step, and the state stays the replay of the history |
| Reconciling.Reconciler.ReapWhenDue | internal/reconciler/reconciler.go:209-215 | marks the record exactly when reaping is on, the record is due and the deletion succeeded or found nothing |
| Reconciling.Reconciler.ReconcileTemplates | internal/reconciler/reconciler.go:95-155 | carries out one verdict per listed template, in order, and counts the orphans |
| Reconciling.Reconciler.ReconcileClaims | internal/reconciler/reconciler.go:159-197 | the same for claims; failed lookups and claims not made from a template are passed over |
| Reconciling.Reconciler.ReconcileClaim | internal/reconciler/reconciler.go:167-193 | one claim is handled as its verdict says |
| Reconciling.Reconciler.ReconcileOnce | internal/reconciler/reconciler.go:58-91 | one pass extends the run of passes the theorems above are about |
| Preflight.NodeAvailability | internal/webhook/preflight.go:157-187 | nothing exactly when no rail is left; otherwise each zone reports between 1 and its total, and together the zones report at least the free rails and fewer than that plus the number of zones |
| Preflight.ZoneBounds | internal/webhook/preflight.go:176-183 | while the node has a free rail every zone reports at least one, and never more than it has |
| Preflight.FairIsBalanced | internal/webhook/preflight.go:176-183 | the rounding errors of the zones add up to less than one rail a zone |
| Preflight.CountZones | internal/webhook/preflight.go:165-169 | the totals are the numbers of rails per zone |

## Left out

- HTTP and TLS serving, admission review decoding, configuration loading, flags and logging: plumbing around the modelled functions.
- Kubernetes clients: what a call reads from the API server is an arbitrary snapshot passed in; what it writes is a template store or a deletion outcome.
- Failures of creating or reading a template other than a diverging spec: they only deny the pod.
- SHA-256 template names: an arbitrary naming function; that different specs never share a name is not claimed, a diverging spec under one name is refused as in the program.
- CEL, YAML and JSON text: selectors are the conjuncts the builders write, pods are JSON values, and the patch is its list of operations.
- Device classes: whether a class admits a device is decided elsewhere; a device is accepted when the selectors of the request hold. Kubernetes reports a selector that fails to evaluate, on a missing attribute for instance, as an error of the claim; here the device is just not accepted.
- The constraint that GPU and NIC of a pair share a PCIe root on Ethernet is kept as a flag; what it selects is not modelled.
- Label selectors: the pods a list with a selector returns are given, and a selector either parses or does not.
- Device parameters of claims (routes, rules, interface names) are kept only as the position and rail they are made from.
- `BuildClaimTemplateSpec`, `TemplateName`, the Ethernet preflight estimate, rail selection by preflight and the explicit preflight check: not called by the modelled paths.
- Bytes and runes: strings are sequences of characters; the scanned integer of a key has no upper bound.
- Integer overflow of counts, and resource quantities that are not integers.
- The check for a missing allocator at internal/webhook/mutator.go:93-95.
- Init and ephemeral containers, and every other member of a pod that the patch does not touch, are kept as uninterpreted members.
- Uniqueness of `gpu-nic-pair-i` against claims the pod already has: the program does not look, so nothing is claimed.
- Requests.ExtractInterceptedResources: the order of the entries is left open, so the lemmas hold for every order.
- Sorting.SortByKey: `sort.Slice` is modelled on values, by insertion; only its result matters, any order of ties included.
- Real time: how long the debounce wait or a mutation takes. Timers fire at any moment, so nothing is claimed about waiting long enough.
- Queue.MutationQueue.ProcessBatch: the mutation that is run for a request is not modelled here, nor the caller's cancellation.
- Annotating orphans, saving and loading the state file, the ticker of the run loop: input and output. A restart continues the run from the saved records.
- Response.DeletedInTime: assumes, as the interval of the ticker suggests, that two consecutive passes fit into the given width; slower passes give a larger width.
- Errors of the API server in `reconcileTemplates` other than failed lists are covered by the deletion outcome alone.
- File state, dry runs, manifests and end-to-end tests.
