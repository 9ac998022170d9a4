# Scheduler plugins and bandwidth operator: a verified model

This project models the decision logic of the Kubernetes scheduler plugins and of the
bandwidth operator in Dafny and proves what that logic is for. It follows the code, not the
comments, where the two differ; each difference found is a lemma of its own.

**Preemption under elastic quotas** (`Resources`, `Pods`, `ElasticQuota`, `Reprieve`,
`DisruptionBudgets`, `VictimSelection`, `SelectionInNumbers`, `CapacityPreemption`, `QuotaLedger`,
`CapacityScheduling`, `PreemptionToleration`). The quota objects, the node and the plugin are
classes whose methods change them in place; each method is proved against functions on
values. The in-place remove-all-then-reprieve loop refines a simple greedy (`Reprieve.Run`)
that judges every step from scratch, and from that follow the safety of the result,
irreducibility, and what the guaranteed minimums protect. The selection of a quota-aware
preemptor fails with an error when a pod is removed twice: `SelectionFailsIff` says exactly
when. The ledger of used resources is exact over every run of informer events, reservations
and un-reservations, and a preemption attempt never touches it.

**The NUMA topology cache, filter and score** (`EffectiveRequest`, `Topology`,
`TopologyCache`, `OverReserve`, `NumaNodes`, `NumaFilter`, `LeastNuma`, `NumaScore`). The
cache is a state machine over its locked steps; what it serves is told from the history of
steps alone. On it rests the promise that pessimistic accounting never causes a false
positive. The single-NUMA filter is proved independent of map order and monotone, its
container scope finds feasible alignments, and the least-NUMA search is proved minimal in
size and, at that size, in distance. Three assumptions of the code turn out to be needed:
NUMA ids below 64 (the guard admits 64), distances within the bound of 255 that section
5.2.17 of the ACPI Specification sets, and list positions equal to NUMA ids in the score.

**Bandwidth accounting** (`BandwidthAnnotations`, `BandwidthSync`, `BandwidthObject`). The
operator's two recomputation loops, its memo table, its change detection and the scheduler's
reservations, up to the fixpoint of the sync and the invariant that local bandwidth is never
oversubscribed in runs whose admissions see a status that does not overstate what is left,
which is exactly what is needed.

**Gang scheduling** (`GangScheduling`, `ClusterCapacity`). Permit, wait, allow and reject as
a protocol over pod groups, and the greedy cluster-wide capacity check.

`Sums` holds finite sums over sets, which is what Go loops over maps compute; `Options` the
values that may be absent.

Specification functions are tied to the numbers they stand for by lemmas named "...InNumbers",
"...ByIndex", "...ByCluster" and the like, which speak of the fields of the input directly.

Conventions: quantities are unbounded integers, resource lists are maps, "all filter plugins
pass on this node" is an arbitrary predicate `fits` on the set of pods on the node. Ghost
results of methods record choices the code leaves open (how ties are sorted) or the witnesses
a contract speaks about. In the lists of preconditions, `Identified` says that the pods of a
node have UIDs, all different, `Sane` that quota minimums are not negative, and `Chargeable`
that pod requests are not negative, as the API server ensures.

## Model

| member | source | states |
|---|---|---|
| Resources.ExceedsIff | scheduler-plugins/pkg/capacityscheduling/elasticquota.go:196-224 | the comparison is true exactly when some dimension listed by the first operand exceeds its limit, where a scalar missing from the limit has the given bound |
| Resources.ExceedsMinIff | scheduler-plugins/pkg/capacityscheduling/elasticquota.go:192-224 | against a non-negative minimum the listing does not matter: over minimum means some amount is larger |
| Resources.ExceedsDominated | scheduler-plugins/pkg/capacityscheduling/elasticquota.go:196-224 | a larger request never passes where a smaller one is refused |
| Resources.ExceedsMonotone | scheduler-plugins/pkg/capacityscheduling/elasticquota.go:196-224 | the comparison grows with the amounts of its second operand |
| Pods.ComputePodResourceRequest | scheduler-plugins/pkg/capacityscheduling/capacity_scheduling.go:858-875 | the loops compute the request that the least-cover lemma characterizes |
| Pods.RequestIsLeastCover | scheduler-plugins/pkg/capacityscheduling/capacity_scheduling.go:829-875 | the charge is the least that covers all app containers together and every init container alone, plus overhead |
| Pods.RequestedPodNumber | scheduler-plugins/pkg/capacityscheduling/capacity_scheduling.go:858-875 | init containers do not count towards the number of pods |
| Pods.RequestNonNegative | scheduler-plugins/pkg/capacityscheduling/capacity_scheduling.go:858-875 | non-negative containers make a non-negative charge |
| ElasticQuota.ElasticQuotaInfo.constructor | scheduler-plugins/pkg/capacityscheduling/elasticquota.go:71-87 | a new quota has its bounds or the defaults, no pods and no usage |
| ElasticQuota.ElasticQuotaInfo.Clone | scheduler-plugins/pkg/capacityscheduling/elasticquota.go:133-156 | a clone has the same value |
| ElasticQuota.ElasticQuotaInfo.ReserveResource | scheduler-plugins/pkg/capacityscheduling/elasticquota.go:89-97 | usage grows by the request in every dimension, scalars in any map order |
| ElasticQuota.ElasticQuotaInfo.UnreserveResource | scheduler-plugins/pkg/capacityscheduling/elasticquota.go:99-107 | usage shrinks by the request in every dimension |
| ElasticQuota.ElasticQuotaInfo.AddPodIfNotPresent | scheduler-plugins/pkg/capacityscheduling/elasticquota.go:158-173 | a pod is charged once; no UID is an error and changes nothing |
| ElasticQuota.ElasticQuotaInfo.DeletePodIfPresent | scheduler-plugins/pkg/capacityscheduling/elasticquota.go:175-190 | only a tracked pod is given back |
| ElasticQuota.CloneInfos | scheduler-plugins/pkg/capacityscheduling/elasticquota.go:40-46 | a snapshot has equal values in objects that are all new |
| ElasticQuota.AddPodToInfos | scheduler-plugins/pkg/capacityscheduling/capacity_scheduling.go:291-309 | charges the pod's quota in the snapshot and no other |
| ElasticQuota.RemovePodFromInfos | scheduler-plugins/pkg/capacityscheduling/capacity_scheduling.go:312-330 | gives the pod back in its quota and no other |
| ElasticQuota.AggregatedUsedOverMinWith | scheduler-plugins/pkg/capacityscheduling/elasticquota.go:48-59 | true exactly when the sum over all quotas plus the request exceeds the sum of the minimums somewhere |
| ElasticQuota.TestsInNumbers | scheduler-plugins/pkg/capacityscheduling/elasticquota.go:109-131 | each test of one quota is a comparison of amounts: with its Min, zero where unlisted, or its Max, the largest 64-bit number where unlisted |
| ElasticQuota.TotalsAreSums | scheduler-plugins/pkg/capacityscheduling/elasticquota.go:48-59 | total usage and total Min grow by each quota's own |
| ElasticQuota.SameTests | scheduler-plugins/pkg/capacityscheduling/elasticquota.go:48-131 | no quota test can tell tables apart that differ only in scalars listed with amount zero |
| ElasticQuota.AddThenRemove | scheduler-plugins/pkg/capacityscheduling/elasticquota.go:158-190 | adding an untracked pod and removing it again restores the table |
| ElasticQuota.TestsMonotone | scheduler-plugins/pkg/capacityscheduling/elasticquota.go:48-131 | all quota tests are monotone in what is in use |
| Reprieve.RunSplits | scheduler-plugins/pkg/preemptiontoleration/preemption_toleration.go:251-287 | kept candidates and victims together are the candidates, as multisets |
| Reprieve.RunStaysOk | scheduler-plugins/pkg/preemptiontoleration/preemption_toleration.go:251-287 | an acceptable start ends acceptable |
| Reprieve.RunIsIrreducible | scheduler-plugins/pkg/preemptiontoleration/preemption_toleration.go:251-287 | though each candidate is tried once, no victim could be put back at the end |
| DisruptionBudgets.FilterPodsWithPDBViolation | scheduler-plugins/pkg/capacityscheduling/capacity_scheduling.go:882-927 | the in-place budget countdown splits the pods as the counting specification does |
| DisruptionBudgets.SplitIsPartition | scheduler-plugins/pkg/preemptiontoleration/preemption_toleration.go:360-405 | the two groups together are the input |
| DisruptionBudgets.SplitIsStable | scheduler-plugins/pkg/preemptiontoleration/preemption_toleration.go:354-405 | both groups keep the input order |
| DisruptionBudgets.BudgetsAreRespected | scheduler-plugins/pkg/capacityscheduling/capacity_scheduling.go:882-927 | pods classed as non-violating never use more of any budget than it allows, even when pods match several budgets |
| DisruptionBudgets.AmpleBudgetsViolateNothing | scheduler-plugins/pkg/capacityscheduling/capacity_scheduling.go:882-927 | if every budget covers all its pods, no pod is violating |
| DisruptionBudgets.ViolatingForAReason | scheduler-plugins/pkg/capacityscheduling/capacity_scheduling.go:894-925 | a violating pod overdraws a budget that it matches and that does not list it as disrupted, counting the matching pods up to it |
| VictimSelection.ReprievesRefinesRun | scheduler-plugins/pkg/capacityscheduling/capacity_scheduling.go:621-669 | every successful in-place reprieve gives what the simple greedy gives and leaves the snapshot charged for exactly the pods put back |
| VictimSelection.MisfitsAreVictims | scheduler-plugins/pkg/capacityscheduling/capacity_scheduling.go:630-661 | only pods that fail the filters are counted, and without a quota that is every victim |
| VictimSelection.SelectionIsSafe | scheduler-plugins/pkg/capacityscheduling/capacity_scheduling.go:488-670 | on success the victims are pods of the node, none twice, the node without them passes the filters, the preemptor stays within its Max and all usage within the sum of Min |
| VictimSelection.OnlyVictimsAreUncharged | scheduler-plugins/pkg/capacityscheduling/capacity_scheduling.go:515-669 | the snapshot ends as if the victims, and nothing else, had been deleted from it |
| VictimSelection.SelectionIsIrreducible | scheduler-plugins/pkg/capacityscheduling/capacity_scheduling.go:621-669 | with any one victim back, the filters fail or the quota test with nominated requests trips |
| VictimSelection.GuaranteesAreRespected | scheduler-plugins/pkg/capacityscheduling/capacity_scheduling.go:541-593 | by the numbers of the quotas: victims of another namespace come only from quotas over their Min, and only while the preemptor leaves its own within Min; otherwise victims have lower priority in the same namespace, or no quota is involved |
| VictimSelection.ModeInNumbers | scheduler-plugins/pkg/capacityscheduling/capacity_scheduling.go:544-544 | the mode is whether the nominated requests take the preemptor's quota above its Min |
| VictimSelection.ImportanceInNumbers | scheduler-plugins/pkg/capacityscheduling/capacity_scheduling.go:538-625 | the two sorted orders are by priority and then by start time |
| SelectionInNumbers.CandidatesByMode | scheduler-plugins/pkg/capacityscheduling/capacity_scheduling.go:541-593 | which pods of the node are candidates, both ways, in each of the three modes |
| SelectionInNumbers.QuotaTestsInNumbers | scheduler-plugins/pkg/capacityscheduling/capacity_scheduling.go:614-644 | both quota tests compare the quota's usage with its Max and all usage with all minimums |
| SelectionInNumbers.SuccessLeavesRoom | scheduler-plugins/pkg/capacityscheduling/capacity_scheduling.go:488-670 | with the victims deleted, the preemptor's quota stays within Max in every dimension it lists and all usage within the sum of Min in every dimension |
| VictimSelection.DrainedAtMostOnePodPastMin | scheduler-plugins/pkg/capacityscheduling/capacity_scheduling.go:563-577 | with a single victim of its namespace back, a drained quota would still exceed its Min |
| VictimSelection.NoVictimCanBeSpared | scheduler-plugins/pkg/capacityscheduling/capacity_scheduling.go:621-669 | the same told by the original quotas less the victims |
| VictimSelection.DoubleRemovalIff | scheduler-plugins/pkg/capacityscheduling/capacity_scheduling.go:630-653 | in the reprieve loops a pod is removed twice exactly when the quota test trips with all candidates gone and some candidate alone does not fit |
| VictimSelection.SelectionFailsIff | scheduler-plugins/pkg/capacityscheduling/capacity_scheduling.go:488-670 | the same for the whole selection, from the node's pods and the quota table |
| VictimSelection.DoubleRemovalHappens | scheduler-plugins/pkg/capacityscheduling/capacity_scheduling.go:488-653 | a node with one tracked pod of lower priority passes every earlier check and ends in the double removal |
| CapacityPreemption.NodeInfo.AddPodInfo | scheduler-plugins/pkg/capacityscheduling/capacity_scheduling.go:525-526 | the node gains the pod |
| CapacityPreemption.NodeInfo.RemovePod | scheduler-plugins/pkg/capacityscheduling/capacity_scheduling.go:515-518 | removes the one pod with this UID, or fails and changes nothing |
| CapacityPreemption.TakePod | scheduler-plugins/pkg/capacityscheduling/capacity_scheduling.go:515-524 | the pod leaves node and snapshot together, or an error leaves both alone |
| CapacityPreemption.PutBack | scheduler-plugins/pkg/capacityscheduling/capacity_scheduling.go:525-532 | the pod returns to node and snapshot together |
| CapacityPreemption.SortByImportance | scheduler-plugins/pkg/capacityscheduling/capacity_scheduling.go:623-625 | a permutation in which no later pod is more important than an earlier one |
| CapacityPreemption.TakeCandidates | scheduler-plugins/pkg/capacityscheduling/capacity_scheduling.go:541-593 | exactly the eligible pods leave node and snapshot, each judged on the snapshot as it then stands; no removal fails |
| CapacityPreemption.QuotaTrips | scheduler-plugins/pkg/capacityscheduling/capacity_scheduling.go:644-644 | the quota test with nominated requests |
| CapacityPreemption.PreemptorWithinQuota | scheduler-plugins/pkg/capacityscheduling/capacity_scheduling.go:611-619 | the check made once all candidates are gone |
| CapacityPreemption.ReprievePod | scheduler-plugins/pkg/capacityscheduling/capacity_scheduling.go:630-653 | one reprieve step on node, snapshot and tallies, failing exactly on a double removal |
| CapacityPreemption.ReprieveEach | scheduler-plugins/pkg/capacityscheduling/capacity_scheduling.go:654-668 | a reprieve loop leaves node, snapshot, victims and count as the specification says, or fails where it does |
| CapacityPreemption.SelectVictimsOnNode | scheduler-plugins/pkg/capacityscheduling/capacity_scheduling.go:488-670 | each status occurs exactly under its condition on the input; on success victims, node, snapshot and violation count are those of the specification |
| QuotaLedger.LedgerIsExact | scheduler-plugins/pkg/capacityscheduling/capacity_scheduling.go:352-785 | after any run in which pods keep their requests while tracked, each quota's Used is the sum over exactly the pods in its set of what each was charged |
| QuotaLedger.ChargedWhenAdded | scheduler-plugins/pkg/capacityscheduling/elasticquota.go:158-173 | the charge of a tracked pod is the request of the event that added it, since when it has been tracked |
| QuotaLedger.DeleteKeepsExactIff | scheduler-plugins/pkg/capacityscheduling/elasticquota.go:175-190 | deleting a tracked pod keeps the ledger exact if and only if the pod still asks what it was charged |
| QuotaLedger.LedgerTracksHistory | scheduler-plugins/pkg/capacityscheduling/capacity_scheduling.go:352-785 | after any run, quotas and tracked pods are those that the history of events says |
| QuotaLedger.BoundsFollowHistory | scheduler-plugins/pkg/capacityscheduling/capacity_scheduling.go:672-745 | after any run, Min and Max of a quota are those of the last event that set them, or the defaults |
| CapacityScheduling.PreparedCovers | scheduler-plugins/pkg/capacityscheduling/capacity_scheduling.go:229-269 | the sums left by PreFilter cover the pod's own request |
| CapacityScheduling.PreparedInNumbers | scheduler-plugins/pkg/capacityscheduling/capacity_scheduling.go:229-269 | the sums are over the pod, the nominated pods of its namespace of at least its priority and, for the total, those of other quotas not over their Min |
| CapacityScheduling.CapacityScheduling.AddElasticQuota | scheduler-plugins/pkg/capacityscheduling/capacity_scheduling.go:672-684 | a ledger step: an existing quota is left alone |
| CapacityScheduling.CapacityScheduling.UpdateElasticQuota | scheduler-plugins/pkg/capacityscheduling/capacity_scheduling.go:686-700 | a ledger step: new bounds, old pods and usage |
| CapacityScheduling.CapacityScheduling.DeleteElasticQuota | scheduler-plugins/pkg/capacityscheduling/capacity_scheduling.go:702-707 | a ledger step: the quota is gone |
| CapacityScheduling.CapacityScheduling.PodAdd | scheduler-plugins/pkg/capacityscheduling/capacity_scheduling.go:709-745 | a ledger step: a listed quota is created on demand and the pod charged once |
| CapacityScheduling.CapacityScheduling.PodUpdate | scheduler-plugins/pkg/capacityscheduling/capacity_scheduling.go:747-769 | a ledger step: only a pod leaving Running and Pending is given back |
| CapacityScheduling.CapacityScheduling.PodDelete | scheduler-plugins/pkg/capacityscheduling/capacity_scheduling.go:771-785 | a ledger step: a tracked pod is given back |
| CapacityScheduling.CapacityScheduling.Reserve | scheduler-plugins/pkg/capacityscheduling/capacity_scheduling.go:352-367 | a ledger step, with an error for a pod without UID |
| CapacityScheduling.CapacityScheduling.Unreserve | scheduler-plugins/pkg/capacityscheduling/capacity_scheduling.go:369-382 | a ledger step: gives back what Reserve charged |
| CapacityScheduling.CapacityScheduling.PreFilter | scheduler-plugins/pkg/capacityscheduling/capacity_scheduling.go:209-283 | takes a separate snapshot, sums up exactly the nominated pods that count, and refuses exactly when a quota test trips |
| CapacityScheduling.CapacityScheduling.TryPreemption | scheduler-plugins/pkg/capacityscheduling/capacity_scheduling.go:332-350 | from PreFilter to victims the live quotas do not change; each status has its exact condition; on success deleting the victims makes room in the live quotas and none of them could be spared |
| PreemptionToleration.TolerationExpires | scheduler-plugins/pkg/preemptiontoleration/preemption_toleration.go:127-179 | once a pod is not exempted, time alone never exempts it again |
| PreemptionToleration.HeldOffIff | scheduler-plugins/pkg/preemptiontoleration/preemption_toleration.go:148-179 | a policy holds a preemptor off exactly when its priority is below the minimum preemptable one and the victim's toleration has no limit or has not run out |
| PreemptionToleration.WithoutPolicy | scheduler-plugins/pkg/preemptiontoleration/preemption_toleration.go:127-158 | what happens without a class, without a policy, with an unknown class, and for a preemptor that never preempts |
| PreemptionToleration.ReprievePod | scheduler-plugins/pkg/preemptiontoleration/preemption_toleration.go:255-271 | the pod stays exactly when the node fits with it |
| PreemptionToleration.TakeExposed | scheduler-plugins/pkg/preemptiontoleration/preemption_toleration.go:214-235 | takes exactly the preemptable pods off the node unless a priority class is unknown |
| PreemptionToleration.ReprieveEach | scheduler-plugins/pkg/preemptiontoleration/preemption_toleration.go:272-286 | a reprieve loop leaves node and victims as the greedy run does and counts its misfits |
| PreemptionToleration.SelectVictimsOnNode | scheduler-plugins/pkg/preemptiontoleration/preemption_toleration.go:186-288 | each status occurs exactly under its condition; on success victims, node and violation count are those of the greedy run |
| PreemptionToleration.TolerationSelectionIsIrreducible | scheduler-plugins/pkg/preemptiontoleration/preemption_toleration.go:181-288 | victims are lower-priority pods not exempted, the node without them fits, and none of them could be spared |
| EffectiveRequest.GetPodEffectiveRequest | scheduler-plugins/pkg/util/resource.go:50-77 | the three loops compute the effective request, whatever the map order |
| EffectiveRequest.EffectiveIsLeastCover | scheduler-plugins/pkg/util/resource.go:44-77 | it is the least request covering the app containers together and every init container alone |
| Topology.ViewInsert | scheduler-plugins/pkg/noderesourcetopology/cache/store.go:127-160 | charging one more pod is one more reduction of every zone, in any order |
| Topology.ViewAmounts | scheduler-plugins/pkg/noderesourcetopology/cache/store.go:136-157 | every entry of every zone shows what was reported less what all assumed pods ask of that resource, or zero |
| Topology.DemandIsSum | scheduler-plugins/pkg/noderesourcetopology/cache/store.go:129-160 | what is asked grows by each pod's request |
| Topology.TruthAmounts | scheduler-plugins/pkg/noderesourcetopology/cache/store.go:131-135 | the true state is what was reported less what the pods really use of that zone, or zero |
| Topology.RealUseIsSum | scheduler-plugins/pkg/noderesourcetopology/cache/store.go:131-135 | what is really used grows by each pod's use |
| Topology.ViewIsLowerBound | scheduler-plugins/pkg/noderesourcetopology/cache/store.go:131-135 | wherever the assumed pods really run, the view promises no more than there is |
| TopologyCache.KeysAreUnique | scheduler-plugins/pkg/noderesourcetopology/cache/store.go:78-102 | pod keys tell pods apart |
| TopologyCache.ChargesFollowHistory | scheduler-plugins/pkg/noderesourcetopology/cache/overreserve.go:149-180 | after any run, a pod is charged with a request exactly when that reservation still stands in the history |
| TopologyCache.ReportsFollowHistory | scheduler-plugins/pkg/noderesourcetopology/cache/overreserve.go:344-356 | after any run, the stored report is the last one flushed, or the initial one |
| TopologyCache.MarksFollowHistory | scheduler-plugins/pkg/noderesourcetopology/cache/overreserve.go:137-147 | a node is marked exactly when a foreign pod, or an attribute change, was seen on it, while known, since its last flush |
| TopologyCache.DiscardsFollowHistory | scheduler-plugins/pkg/noderesourcetopology/cache/overreserve.go:130-164 | a node counts as discarded exactly when it was discarded and has neither got a pod nor been flushed since |
| TopologyCache.GenerationCountsFlushes | scheduler-plugins/pkg/noderesourcetopology/cache/overreserve.go:357-364 | the generation is the number of non-empty flushes |
| TopologyCache.ServedViewIsPessimistic | scheduler-plugins/pkg/noderesourcetopology/cache/overreserve.go:101-180 | in every run a marked or unknown node serves nothing, any other the last report with each amount less the requests reserved and not unreserved since its last flush, or zero |
| OverReserve.SubtractFromZone | scheduler-plugins/pkg/noderesourcetopology/cache/store.go:136-157 | each resource of the zone drops by the request, not below zero |
| OverReserve.UpdateNRT | scheduler-plugins/pkg/noderesourcetopology/cache/store.go:129-160 | the report becomes the view, whatever the map order |
| OverReserve.OverReserve.constructor | scheduler-plugins/pkg/noderesourcetopology/cache/store.go:44-54 | the cache starts with private copies of the listed reports and nothing assumed |
| OverReserve.OverReserve.GetCachedNRTCopy | scheduler-plugins/pkg/noderesourcetopology/cache/overreserve.go:101-128 | serves a new object holding the view, or nothing, and changes nothing |
| OverReserve.OverReserve.NodeMaybeOverReserved | scheduler-plugins/pkg/noderesourcetopology/cache/overreserve.go:130-135 | the discard step of the state machine |
| OverReserve.OverReserve.NodeHasForeignPods | scheduler-plugins/pkg/noderesourcetopology/cache/overreserve.go:137-147 | the foreign-pod step: unknown nodes are ignored |
| OverReserve.OverReserve.AttributesUpdated | scheduler-plugins/pkg/noderesourcetopology/cache/attr_watch.go:79-91 | the attribute-change step: unknown nodes are ignored |
| OverReserve.OverReserve.ReserveNodeResources | scheduler-plugins/pkg/noderesourcetopology/cache/overreserve.go:149-164 | the reserve step: the pod is charged and the discard mark dropped |
| OverReserve.OverReserve.UnreserveNodeResources | scheduler-plugins/pkg/noderesourcetopology/cache/overreserve.go:166-180 | the unreserve step |
| OverReserve.OverReserve.GetDesyncedNodes | scheduler-plugins/pkg/noderesourcetopology/cache/overreserve.go:212-245 | dirty nodes are those discarded or marked, changed nodes are listed apart |
| OverReserve.OverReserve.UpdateStore | scheduler-plugins/pkg/noderesourcetopology/cache/store.go:73-76 | the store holds a new copy of the report and the other nodes' objects untouched |
| OverReserve.OverReserve.FlushNodes | scheduler-plugins/pkg/noderesourcetopology/cache/overreserve.go:344-364 | the flush step; the stored objects are new or were there before, never the given ones |
| NumaNodes.CreateNUMANodeList | scheduler-plugins/pkg/noderesourcetopology/pluginhelpers.go:103-132 | every node has the id, the resources and the costs that the zones say, and extraction breaks down exactly when a zone has id 64 |
| NumaNodes.NodeListByIndex | scheduler-plugins/pkg/noderesourcetopology/pluginhelpers.go:103-132 | the list holds one node per NUMA zone, in report order, with the id and the last amounts of its zone and the costs of the last zone of that id |
| NumaNodes.ResourceKinds | scheduler-plugins/pkg/noderesourcetopology/numaresources.go:105-135 | which resources are bound to NUMA nodes and which may live on the host |
| NumaNodes.ExtractResources | scheduler-plugins/pkg/noderesourcetopology/pluginhelpers.go:153-159 | every resource listed is there, with the amount of its last entry |
| NumaNodes.LastResourceWins | scheduler-plugins/pkg/noderesourcetopology/pluginhelpers.go:153-159 | the same of the specification function |
| NumaNodes.ExtractCosts | scheduler-plugins/pkg/noderesourcetopology/pluginhelpers.go:134-151 | every usable id listed is there, with the value of its last usable entry |
| NumaNodes.LastCostWins | scheduler-plugins/pkg/noderesourcetopology/pluginhelpers.go:134-151 | the same of the specification function |
| NumaNodes.NoMoreUpTo | scheduler-plugins/pkg/noderesourcetopology/pluginhelpers.go:103-132 | smaller zones give node lists with no more available |
| NumaFilter.ResourcesAvailableInAnyNUMANodes | scheduler-plugins/pkg/noderesourcetopology/filter.go:95-161 | accepts exactly when the node lists every resource and one id can give all of them, and returns the lowest such id, in any map order |
| NumaFilter.AcceptsIsMonotone | scheduler-plugins/pkg/noderesourcetopology/filter.go:95-161 | more availability never turns an accepted request down |
| NumaFilter.SingleNUMAPodLevelHandler | scheduler-plugins/pkg/noderesourcetopology/filter.go:163-181 | accepts exactly when the effective request fits one NUMA node |
| NumaFilter.NoFalsePositives | scheduler-plugins/pkg/noderesourcetopology/cache/store.go:131-135 | however the assumed pods are spread over zones, a pod accepted on the view is accepted on the true state |
| NumaFilter.NoFalsePositivesInAnyRun | scheduler-plugins/pkg/noderesourcetopology/cache/store.go:127-160 | the same for the view served after any run of the cache |
| NumaFilter.PodAcceptedByZone | scheduler-plugins/pkg/noderesourcetopology/filter.go:95-181 | with distinct ids, a pod is accepted exactly when the node lists all it asks for and one zone has enough of every resource that is checked, or none concerns the zones |
| NumaFilter.AcceptedPodsReallyFit | scheduler-plugins/pkg/noderesourcetopology/cache/store.go:131-135 | no false positives in numbers: one zone has, after what the assumed pods really use of it, at least what an accepted pod asks |
| NumaFilter.SubtractFromNode | scheduler-plugins/pkg/noderesourcetopology/numaresources.go:155-178 | takes what counts from one node, failing exactly on an overdraft |
| NumaFilter.SubtractResourcesFromNUMANodeList | scheduler-plugins/pkg/noderesourcetopology/numaresources.go:145-182 | takes it from the nodes of this id and no others, failing exactly on an overdraft |
| NumaFilter.FittingNeverOverdraws | scheduler-plugins/pkg/noderesourcetopology/filter.go:80-85 | with distinct ids the accounting error cannot follow a successful fit |
| NumaFilter.DistinctIdsStayConsistent | scheduler-plugins/pkg/noderesourcetopology/filter.go:80-85 | no run over a list with distinct ids ends in the accounting error |
| NumaFilter.RepeatedIdIsInconsistent | scheduler-plugins/pkg/noderesourcetopology/filter.go:80-85 | with a repeated id the handler's verdict is the accounting error: the container fits an entry of the lowest id and overdraws the other |
| NumaFilter.AlignmentIsFeasible | scheduler-plugins/pkg/noderesourcetopology/filter.go:69-89 | every placed container fits the node chosen for it on the machine as it was, and on every NUMA node the requests of the containers placed there sum to no more than it had |
| NumaFilter.EndingIsUnique | scheduler-plugins/pkg/noderesourcetopology/filter.go:69-89 | the list and the containers determine the verdict and the choices |
| NumaFilter.VerdictIsUnique | scheduler-plugins/pkg/noderesourcetopology/filter.go:44-91 | a pod has one possible verdict |
| NumaFilter.SingleNUMAContainerLevelHandler | scheduler-plugins/pkg/noderesourcetopology/filter.go:44-91 | the verdict is the end of the greedy run: each container on the lowest id that fits it on the list left by the earlier ones; accepted when all are placed, refused at one that fits nowhere, in error exactly where the lowest fitting id is overdrawn |
| LeastNuma.CombinationsAreValid | scheduler-plugins/pkg/noderesourcetopology/least_numa.go:169-169 | every combination is an increasing selection of the right size |
| LeastNuma.CombinationsAreComplete | scheduler-plugins/pkg/noderesourcetopology/least_numa.go:169-169 | every such selection is listed |
| LeastNuma.CombinationsAreOrdered | scheduler-plugins/pkg/noderesourcetopology/least_numa.go:169-169 | in lexicographic order |
| LeastNuma.NodesAvgDistance | scheduler-plugins/pkg/noderesourcetopology/least_numa.go:124-146 | the average over all ordered pairs, unknown distances counting 255 |
| LeastNuma.AverageInNumbers | scheduler-plugins/pkg/noderesourcetopology/least_numa.go:124-146 | the average times the number of pairs is the sum of the reported distances of all ordered pairs, 255 where none is reported |
| LeastNuma.FitsInNumbers | scheduler-plugins/pkg/noderesourcetopology/least_numa.go:218-241 | fitting is that every node lists every resource and their amounts sum to the request of each that is checked |
| LeastNuma.CloserPairWins | scheduler-plugins/pkg/noderesourcetopology/least_numa.go:187-216 | of two fitting pairs with the same own distances, the one with the smaller reported distances is chosen |
| LeastNuma.CombineResources | scheduler-plugins/pkg/noderesourcetopology/least_numa.go:148-162 | each resource is summed over the chosen nodes |
| LeastNuma.CheckFit | scheduler-plugins/pkg/noderesourcetopology/least_numa.go:218-241 | fits exactly when all chosen nodes know all resources and together have enough |
| LeastNuma.MinAvgDistanceInCombinations | scheduler-plugins/pkg/noderesourcetopology/least_numa.go:110-122 | the least average, capped at 255 |
| LeastNuma.FindSuitableCombination | scheduler-plugins/pkg/noderesourcetopology/least_numa.go:187-216 | the first fitting combination of least average; the flag is true exactly when that is the minimum over all combinations |
| LeastNuma.NumaNodesRequired | scheduler-plugins/pkg/noderesourcetopology/least_numa.go:164-182 | a fitting subset of the smallest size, at that size of the least average distance, and the first in lexicographic order among ties; none exactly when no near subset fits; the flag is exact over all subsets of that size |
| LeastNuma.LeastIsUnique | scheduler-plugins/pkg/noderesourcetopology/least_numa.go:164-216 | which subset is chosen is determined, ties included |
| LeastNuma.SlitMakesAllNear | scheduler-plugins/pkg/noderesourcetopology/least_numa.go:31-34 | with distances up to 255 every subset is near enough, so nothing is returned only when nothing fits |
| LeastNuma.FarNodeIsMissed | scheduler-plugins/pkg/noderesourcetopology/least_numa.go:189-193 | beyond that bound a fitting node is missed |
| LeastNuma.FewerNodesScoreHigher | scheduler-plugins/pkg/noderesourcetopology/least_numa.go:99-108 | fewer nodes always score higher, distance decides between equals |
| NumaScore.TakeResource | scheduler-plugins/pkg/noderesourcetopology/numaresources.go:186-213 | each node reached gives what it can of what is still missing, other nodes and resources are untouched; fails exactly when something is missing at a position past the list |
| NumaScore.SubtractFromNUMAs | scheduler-plugins/pkg/noderesourcetopology/numaresources.go:184-215 | the same for all resources of a request, in any map order |
| NumaScore.SubtractionConserves | scheduler-plugins/pkg/noderesourcetopology/numaresources.go:184-215 | the machine loses what was asked, or all that the nodes had if less, once |
| NumaScore.OnlyNonNUMAResources | scheduler-plugins/pkg/noderesourcetopology/pluginhelpers.go:161-171 | true exactly when no node knows any requested resource |
| NumaScore.PlaceContainer | scheduler-plugins/pkg/noderesourcetopology/least_numa.go:45-70 | one container is skipped, or its least nodes are found and the nodes at their ids used up, or nothing fits, or using them up runs past the list |
| NumaScore.LeastNUMAContainerScopeScore | scheduler-plugins/pkg/noderesourcetopology/least_numa.go:37-76 | the score is that of the largest placement and of whether all were closest; it is zero when a container fits nowhere; the loop breaks down exactly where using up the chosen ids runs past the list |
| NumaScore.MostNodesIsMaximum | scheduler-plugins/pkg/noderesourcetopology/least_numa.go:62-64 | the number that is graded is that of the container that took the most nodes |
| NumaScore.FinishIsUnique | scheduler-plugins/pkg/noderesourcetopology/least_numa.go:37-76 | node list and containers determine how the loop ends, at which container, and the run that is scored |
| NumaScore.LeastNUMAPodScopeScore | scheduler-plugins/pkg/noderesourcetopology/least_numa.go:78-97 | the score of the least nodes for the effective request, the maximum without NUMA resources, zero when nothing fits |
| NumaScore.PodConserves | scheduler-plugins/pkg/noderesourcetopology/least_numa.go:45-70 | over all containers the machine never loses more than was asked, and exactly that much if and only if the nodes used up held each request |
| NumaScore.ChosenAreUsed | scheduler-plugins/pkg/noderesourcetopology/least_numa.go:67-69 | where list positions are ids, the nodes used up are the nodes chosen |
| NumaScore.AlignedRunsHold | scheduler-plugins/pkg/noderesourcetopology/least_numa.go:45-70 | there, of guaranteed pods every resource, and of other pods every resource that is checked, drops by exactly what the containers asked |
| NumaScore.MisplacedRequest | scheduler-plugins/pkg/noderesourcetopology/least_numa.go:67-69 | elsewhere a request can be taken from a node that was not chosen and does not hold it |
| NumaScore.UncheckedRequestFallsShort | scheduler-plugins/pkg/noderesourcetopology/least_numa.go:45-70 | CPU of a pod that is not guaranteed is not checked, and then less can disappear than was asked |
| BandwidthAnnotations.ParseFormat | scheduler-plugins/pkg/vaclabscheduling/bandwidth_resource.go:314-327 | parsing undoes formatting for every positive rate in range, in both styles |
| BandwidthAnnotations.FormatStyles | scheduler-plugins/pkg/vaclabscheduling/bandwidth_resource.go:403-411 | the OVN keys take plain numbers, all others an M behind them |
| BandwidthAnnotations.ParseStyles | scheduler-plugins/pkg/vaclabscheduling/bandwidth_resource.go:314-327 | signs are read, anything else is left to the quantity parser, and rates are rounded towards zero |
| BandwidthAnnotations.ExtractedRates | scheduler-plugins/pkg/vaclabscheduling/bandwidth_resource.go:416-463 | what is extracted: both defaults without annotations, else what each says, or a positive default where it says nothing |
| BandwidthAnnotations.ExtractIsIdempotent | scheduler-plugins/pkg/vaclabscheduling/bandwidth_resource.go:416-463 | extracting twice gives the same rate and changes nothing the second time |
| BandwidthAnnotations.OperatorReadsWhatWasReserved | bandwidth-operator/internal/controller/helpers.go:68-97 | the operator reads from the annotations what the scheduler reserved |
| BandwidthAnnotations.OperatorAgreesIff | scheduler-plugins/pkg/vaclabscheduling/bandwidth_resource.go:416-463 | with in-range defaults of any sign, operator and scheduler agree if and only if the pod brought an annotation or no default is negative |
| BandwidthAnnotations.NegativeDefaultIsLost | scheduler-plugins/pkg/vaclabscheduling/bandwidth_resource.go:426-438 | a negative default is reserved but never written |
| BandwidthAnnotations.AnnotatedPod.ExtractPodBandwidthRequirement | scheduler-plugins/pkg/vaclabscheduling/bandwidth_resource.go:416-463 | rate and annotations are those of the extraction function |
| BandwidthAnnotations.AnnotatedPod.NormalizePodBandwidthAnnotations | scheduler-plugins/pkg/vaclabscheduling/bandwidth_resource.go:331-400 | annotations are normalized in place; an update is reported exactly when something changed, if no configured key is a known key of the other direction |
| BandwidthAnnotations.NormalizeIsIdempotent | scheduler-plugins/pkg/vaclabscheduling/bandwidth_resource.go:329-400 | a second normalization changes nothing, if no configured key is a known key of the other direction |
| BandwidthAnnotations.NormalizeIsIdempotentIff | scheduler-plugins/pkg/vaclabscheduling/bandwidth_resource.go:329-400 | with different configured keys, that holds on all pods if and only if no configured key is a known key of the other direction |
| BandwidthAnnotations.KnownRates | scheduler-plugins/pkg/vaclabscheduling/bandwidth_resource.go:339-378 | the rates found: the Calico style wins over the OVN style, and only positive values count |
| BandwidthAnnotations.NormalizedRates | scheduler-plugins/pkg/vaclabscheduling/bandwidth_resource.go:380-395 | after normalization the configured keys say what was found |
| BandwidthSync.AllSiblingsOnCurrentNode | bandwidth-operator/internal/controller/helpers.go:208-254 | the two counts answer whether the workload has siblings and all of them are on this node |
| BandwidthSync.LocalityWithOneMore | bandwidth-operator/internal/controller/helpers.go:208-254 | a deleted pod or one of another workload changes no locality, a live sibling elsewhere ends it, and pods without an owner are never local |
| BandwidthSync.OwnerThatCounts | bandwidth-operator/internal/controller/helpers.go:106-134 | the first controlling owner, else the first owner, else the pod itself |
| BandwidthSync.FoldIgnoresCase | bandwidth-operator/internal/controller/helpers.go:212-246 | names, kinds and UIDs are compared without regard to case |
| BandwidthSync.KeptByCluster | bandwidth-operator/internal/controller/setup_bandwidth.go:482-519 | from the cluster alone: exactly the requests with a live annotated pod or a pending pod are kept, in order, with the rate of the annotations or of the request; the sibling loop also drops terminating pods |
| BandwidthSync.BuildHolders | bandwidth-operator/internal/controller/setup_bandwidth.go:434-456 | the UIDs are those of the live, annotated pods of the node, each with the pod listed last |
| BandwidthSync.LastHolderWins | bandwidth-operator/internal/controller/setup_bandwidth.go:434-456 | the same of the specification function |
| BandwidthSync.RecomputeForSync | bandwidth-operator/internal/controller/setup_bandwidth.go:458-621 | requests, reservations, totals and memo table are those of the specification |
| BandwidthSync.RecomputeForSibling | bandwidth-operator/internal/controller/setup_bandwidth.go:264-357 | the same for the other loop, which drops terminating pods |
| BandwidthSync.LoopsAgreeIff | bandwidth-operator/internal/controller/setup_bandwidth.go:264-621 | the two loops agree if and only if no request is for a terminating pending pod |
| BandwidthSync.CacheIsTransparent | bandwidth-operator/internal/controller/setup_bandwidth.go:475-555 | the memo table changes nothing when an owner UID determines namespace and kind |
| BandwidthObject.Bandwidth.SyncFromSpecAndPods | bandwidth-operator/internal/controller/setup_bandwidth.go:392-695 | a missing node, a name mismatch, or the sync: what is written and whether spec and status count as changed |
| BandwidthObject.Bandwidth.SyncSingleNodeBandwidth | bandwidth-operator/internal/controller/setup_bandwidth.go:221-390 | the object books exactly what the sibling loop keeps |
| BandwidthObject.SyncReachesFixpoint | bandwidth-operator/internal/controller/setup_bandwidth.go:458-709 | a second sync of an unchanged cluster changes neither spec nor status |
| BandwidthObject.SiblingSyncSettles | bandwidth-operator/internal/controller/setup_bandwidth.go:221-709 | after a sync for a sibling's sake the node's own sync finds nothing to do |
| BandwidthObject.SyncsComputeTheSameIff | bandwidth-operator/internal/controller/setup_bandwidth.go:221-644 | both syncs compute the same object if and only if no request is for a terminating pending pod |
| BandwidthObject.SyncedUsageIsExact | bandwidth-operator/internal/controller/setup_bandwidth.go:590-644 | used is the sum over the stored requests, all of them locally and the non-local ones on the network; used and remaining make up the capacity; network used is at most local used |
| BandwidthObject.SumsInNumbers | bandwidth-operator/internal/controller/setup_bandwidth.go:520-600 | the sums are over all requests and, on the network, over those that are not local |
| BandwidthObject.StoredByCluster | bandwidth-operator/internal/controller/setup_bandwidth.go:482-695 | what a sync leaves stored, told from the cluster |
| BandwidthObject.BookingMirrors | bandwidth-operator/internal/controller/setup_bandwidth.go:556-600 | requests and reservations tell the same names, owner and rates |
| BandwidthObject.DefaultsFillZeros | bandwidth-operator/internal/controller/helpers.go:46-58 | defaults stand in for zeros, component by component |
| BandwidthObject.ReservationsUpToDateIff | bandwidth-operator/internal/controller/setup_bandwidth.go:634-676 | reservations are up to date after a sync exactly when something else in the status changed or they already were |
| BandwidthObject.StaleReservationRemains | bandwidth-operator/internal/controller/setup_bandwidth.go:634-640 | a reservation naming a replaced pod of the same rate survives every sync |
| BandwidthObject.Bandwidth.AddBandwidthRequest | scheduler-plugins/pkg/vaclabscheduling/bandwidth_resource.go:110-146 | the pod has one request, the new one, last |
| BandwidthObject.Bandwidth.RemoveBandwidthRequest | scheduler-plugins/pkg/vaclabscheduling/bandwidth_resource.go:149-180 | the pod has no request, the others keep their order |
| BandwidthObject.WithoutIsFilter | scheduler-plugins/pkg/vaclabscheduling/bandwidth_resource.go:117-122 | exactly the other pods' requests stay |
| BandwidthObject.Bandwidth.HasSufficientBandwidth | scheduler-plugins/pkg/vaclabscheduling/bandwidth_resource.go:183-204 | an error unless Created, else whether all four remaining rates suffice |
| BandwidthObject.Bandwidth.Reserve | scheduler-plugins/pkg/vaclabscheduling/vaclab_scheduling.go:300-321 | the reserve step of the protocol |
| BandwidthObject.Bandwidth.Unreserve | scheduler-plugins/pkg/vaclabscheduling/vaclab_scheduling.go:325-345 | the unreserve step of the protocol |
| BandwidthObject.ReservationsInWords | scheduler-plugins/pkg/vaclabscheduling/vaclab_scheduling.go:300-345 | a reservation of nothing writes nothing, any other puts the pod's request last and keeps exactly the others |
| BandwidthObject.StepKeepsLocalBound | scheduler-plugins/pkg/vaclabscheduling/vaclab_scheduling.go:185-345 | every step whose admissions see a status that offers no more than there is room for keeps UIDs unique and local usage within capacity |
| BandwidthObject.LocalBandwidthIsNeverOversubscribed | scheduler-plugins/pkg/vaclabscheduling/vaclab_scheduling.go:185-345 | the same over every run of reserve, unreserve, pod completion and both syncs |
| BandwidthObject.AdmissionsAreSafeIff | scheduler-plugins/pkg/vaclabscheduling/vaclab_scheduling.go:185-321 | every admission of a pod keeps the bound if and only if the stored status offers it nothing, or no more than the other pods' requests leave |
| BandwidthObject.PacedRunsAreSafe | scheduler-plugins/pkg/vaclabscheduling/vaclab_scheduling.go:185-345 | a sync between any two admissions is enough to keep the bound over every run |
| BandwidthObject.SyncPutsInSync | bandwidth-operator/internal/controller/setup_bandwidth.go:602-644 | a sync puts the status in step with the requests |
| BandwidthObject.StaleStatusOversubscribes | scheduler-plugins/pkg/vaclabscheduling/vaclab_scheduling.go:185-321 | two admissions against one stale status, which then overstates what is left, take the capacity twice |
| BandwidthObject.AdmittedRatesAreKept | bandwidth-operator/internal/controller/setup_bandwidth.go:510-519 | pods admitted by the scheduler keep the rates reserved for them, as the bound requires |
| ClusterCapacity.GetNodeResource | scheduler-plugins/pkg/coscheduling/core/core.go:328-362 | what is left is what is allocatable less what pods outside the group ask |
| ClusterCapacity.LeftoverInNumbers | scheduler-plugins/pkg/coscheduling/core/core.go:328-362 | allocatable less the sum of the requests of the pods outside the group, and of the pod slots less their number |
| ClusterCapacity.SubtractNode | scheduler-plugins/pkg/coscheduling/core/core.go:307-315 | a resource stays missing exactly while its remainder is positive |
| ClusterCapacity.CheckClusterResource | scheduler-plugins/pkg/coscheduling/core/core.go:301-321 | succeeds exactly when there is a node and, for every resource, some prefix of the nodes has enough left |
| ClusterCapacity.GreedyIsTotalTestIff | scheduler-plugins/pkg/coscheduling/core/core.go:299-321 | that is the plain total test on every request if and only if no prefix of the nodes has more left than all of them together |
| ClusterCapacity.GreedyIsTotalTest | scheduler-plugins/pkg/coscheduling/core/core.go:299-321 | so it is when no node is overcommitted |
| ClusterCapacity.OvercommitFoolsTheCheck | scheduler-plugins/pkg/coscheduling/core/core.go:307-318 | an overcommitted node after one with room breaks it: the check succeeds though nothing is left in all |
| GangScheduling.FullNameIdentifiesGroup | scheduler-plugins/pkg/coscheduling/coscheduling.go:230-236 | comparing full names is comparing namespace and group |
| GangScheduling.EveryRunIsValid | scheduler-plugins/pkg/coscheduling/coscheduling.go:158-266 | in every run no pod waits in a group that has its quorum |
| GangScheduling.ReleaseNeedsQuorum | scheduler-plugins/pkg/coscheduling/core/core.go:215-245 | a step lets a grouped pod through only at Permit, with its group at MinMember |
| GangScheduling.GangSafety | scheduler-plugins/pkg/coscheduling/core/core.go:215-297 | in every run, each released pod was let through at a moment when MinMember pods of its group were assigned |
| GangScheduling.UnreserveClearsGroup | scheduler-plugins/pkg/coscheduling/coscheduling.go:253-266 | after an Unreserve nobody of the group is left waiting |
| GangScheduling.PermitDecides | scheduler-plugins/pkg/coscheduling/coscheduling.go:212-245 | with the quorum reached the pod and every waiting member get through, otherwise the pod is held |
| GangScheduling.PostFilterDecides | scheduler-plugins/pkg/coscheduling/coscheduling.go:168-193 | waiting members are turned away exactly when more than a tenth of the quorum is missing |
| GangScheduling.UnreserveDecides | scheduler-plugins/pkg/coscheduling/coscheduling.go:253-266 | the pod leaves its node and the other waiting members are turned away |
| GangScheduling.OtherGroupsUntouched | scheduler-plugins/pkg/coscheduling/coscheduling.go:158-266 | no step touches a pod of another group |
| GangScheduling.SoundQuorumIff | scheduler-plugins/pkg/coscheduling/core/core.go:215-231 | a Permit that passes makes a quorum of pods none of which is turned away if and only if the turned-away members are covered by the surplus over MinMember |
| GangScheduling.SoundGangSafety | scheduler-plugins/pkg/coscheduling/core/core.go:215-297 | the same over every run, at the step that released a pod; with no member turned away before it the quorum is sound |
| GangScheduling.RejectedPodsStillCount | scheduler-plugins/pkg/coscheduling/core/core.go:279-297 | otherwise a pod already turned away can complete a quorum that falls apart when it leaves |
| GangScheduling.Coscheduling.CalculateAssignedPods | scheduler-plugins/pkg/coscheduling/core/core.go:279-297 | counts the assigned pods of the group, in any order |
| GangScheduling.Coscheduling.Permit | scheduler-plugins/pkg/coscheduling/coscheduling.go:212-245 | the permit step of the protocol and its three answers |
| GangScheduling.Coscheduling.Unreserve | scheduler-plugins/pkg/coscheduling/coscheduling.go:253-266 | the unreserve step |
| GangScheduling.Coscheduling.PostFilter | scheduler-plugins/pkg/coscheduling/coscheduling.go:158-204 | the rejection step, taken only when more than a tenth of the quorum is missing |

## Left out

- Overflow of 64-bit and 32-bit integers, including the countdown of a budget below its smallest value: amounts are unbounded.
- Filter plugins, label selectors, priority class lookup, NUMA zone names and the Kubernetes quantity parser are parameters; the parser is assumed to read "20M" as twenty million.
- The status code with which a failing filter ends a selection: it is Unschedulable here, whatever the filter said.
- The order of pods within a node after a removal: only which pods are on it matters to the filters.
- Nominated pods come as one list instead of node by node.
- `PodEligibleToPreemptOthers`, candidate node limits and the choice between nodes, which belong to the shared preemption evaluator.
- API clients, informers, listers, events, logging, retries, sleeps and the clock: reads are parameters and writes succeed.
- Locks: the steps of each state machine are taken one at a time.
- `Resync` and the fingerprints that choose what to flush, retention of assumed pods across a flush, the discard-reserved and passthrough caches, and `TopologyMatch.Filter` around the two handlers.
- LeastNuma.NodesAvgDistance: averages are exact reals instead of 32-bit floating point numbers.
- Monotonicity of the container-scope filter: first fit by lowest id can choose differently with more resources, so only the alignment found is claimed.
- BandwidthAnnotations.NormalizeIsIdempotent: the rate found must be in the range that the configured annotation style can express.
- BandwidthSync.AllSiblingsOnCurrentNode: case folding is on ASCII letters only; the list of other nodes, which is not returned for owned pods, and the notification of those nodes are not modelled.
- SetupBandwidthResource, which is not called when reconciling, and the order and conflicts of spec and status writes.
- Network oversubscription: pods that were local become network users when a sibling lands elsewhere, without a capacity check, so there is no such invariant.
- The listing of feasible nodes in the bandwidth plugin's PreFilter, its scores and their normalization.
- GangScheduling.Coscheduling.PostFilter: the tenth is compared in integers instead of 32-bit floating point.
- Back-off and permitted-group caches, sibling activation and changes of MinMember during a run.
- Trimaran, quality-of-service and topological sorting, sysched, the pod group controller, kubectl plugins and generated code: plumbing, floating-point models or easy members.
