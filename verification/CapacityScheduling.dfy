/** The capacity scheduling plugin object: its live quotas, the handlers that
    update them, and scheduling steps that work on a private snapshot. */
module CapacityScheduling {
  import opened Options
  import opened Resources
  import opened Pods
  import opened ElasticQuota
  import opened QuotaLedger
  import opened DisruptionBudgets
  import opened VictimSelection
  import opened CapacityPreemption
  import opened Sums

  /** Nominated pods that count against the preemptor's own quota. */
  predicate CountsInQuota(qs: Quotas, pod: Pod, p: Pod)
  {
    p.uid != pod.uid && p.namespace in qs && p.namespace == pod.namespace && p.priority >= pod.priority
  }

  /** Nominated pods that count against all quotas together. */
  predicate CountsInTotal(qs: Quotas, pod: Pod, p: Pod)
  {
    CountsInQuota(qs, pod, p) ||
    (p.uid != pod.uid && p.namespace in qs && p.namespace != pod.namespace && !OverMin(qs[p.namespace]))
  }

  ghost function SumWhere(counts: Pod -> bool, s: seq<Pod>): Resource
  {
    if s == [] then ZERO
    else
      var earlier := SumWhere(counts, s[..|s| - 1]);
      if counts(s[|s| - 1]) then Plus(earlier, Request(s[|s| - 1])) else earlier
  }

  lemma {:induction false} SumWhereNonNegative(counts: Pod -> bool, s: seq<Pod>)
    requires Chargeable(s)
    ensures NonNegative(SumWhere(counts, s))
  {
    if s != [] {
      SumWhereNonNegative(counts, s[..|s| - 1]);
      assert NonNegative(Request(s[|s| - 1]));
    }
  }

  ghost function QuotaCounter(qs: Quotas, pod: Pod): Pod -> bool { p => CountsInQuota(qs, pod, p) }

  ghost function TotalCounter(qs: Quotas, pod: Pod): Pod -> bool { p => CountsInTotal(qs, pod, p) }

  /** What PreFilter leaves for later: with a quota, the sums over nominated pods include the pod itself. */
  ghost function Prepared(qs: Quotas, pod: Pod, nominated: seq<Pod>): Preemptor
  {
    if pod.namespace in qs then
      Preemptor(pod, Request(pod),
                Plus(SumWhere(QuotaCounter(qs, pod), nominated), Request(pod)),
                Plus(SumWhere(TotalCounter(qs, pod), nominated), Request(pod)))
    else
      Preemptor(pod, Request(pod), ZERO, ZERO)
  }

  // ---- The sums in numbers ----

  ghost function AskAt(s: seq<Pod>, d: Dimension): nat -> int
  {
    (i: nat) => if i < |s| then Amount(Request(s[i]), d) else 0
  }

  ghost function Counted(counts: Pod -> bool, s: seq<Pod>): set<nat> { set i: nat | i < |s| && counts(s[i]) }

  lemma {:induction false} SumWhereIsSum(counts: Pod -> bool, s: seq<Pod>, d: Dimension)
    ensures Amount(SumWhere(counts, s), d) == Sum(Counted(counts, s), AskAt(s, d))
  {
    if s == [] {
      assert Counted(counts, s) == {};
    } else {
      var n: nat := |s| - 1;
      var few := Counted(counts, s[..n]);
      SumWhereIsSum(counts, s[..n], d);
      SumSame(few, AskAt(s[..n], d), AskAt(s, d));
      if counts(s[n]) {
        assert Counted(counts, s) == few + {n};
        SumInsert(few, AskAt(s, d), n);
      } else {
        assert Counted(counts, s) == few;
      }
    }
  }

  /** Nominated pods of the same namespace and at least the same priority. */
  ghost function Rivals(pod: Pod, s: seq<Pod>): set<nat>
  {
    set i: nat | i < |s| && s[i].uid != pod.uid && s[i].namespace == pod.namespace && s[i].priority >= pod.priority
  }

  /** Nominated pods of other quotas that have nothing in use above their minimum. */
  ghost function Entitled(qs: Quotas, pod: Pod, s: seq<Pod>): set<nat>
  {
    set i: nat | i < |s| && s[i].uid != pod.uid && s[i].namespace != pod.namespace && s[i].namespace in qs &&
                 !AboveMin(qs[s[i].namespace])
  }

  /** What PreFilter sums up, with a quota: the pod, its rivals, and for the total the entitled
      pods of other quotas too. */
  lemma PreparedInNumbers(qs: Quotas, pod: Pod, nominated: seq<Pod>, d: Dimension)
    requires pod.namespace in qs && Sane(qs)
    ensures var pre := Prepared(qs, pod, nominated);
            && pre.pod == pod && pre.podReq == Request(pod)
            && Amount(pre.nominatedInQuota, d) ==
                 Amount(Request(pod), d) + Sum(Rivals(pod, nominated), AskAt(nominated, d))
            && Amount(pre.nominatedTotal, d) ==
                 Amount(Request(pod), d) + Sum(Rivals(pod, nominated), AskAt(nominated, d)) +
                 Sum(Entitled(qs, pod, nominated), AskAt(nominated, d))
  {
    var rivals, entitled := Rivals(pod, nominated), Entitled(qs, pod, nominated);
    SumWhereIsSum(QuotaCounter(qs, pod), nominated, d);
    SumWhereIsSum(TotalCounter(qs, pod), nominated, d);
    assert Counted(QuotaCounter(qs, pod), nominated) == rivals;
    forall n | n in qs ensures OverMin(qs[n]) <==> AboveMin(qs[n]) { TestsInNumbers(qs[n], ZERO); }
    assert Counted(TotalCounter(qs, pod), nominated) == rivals + entitled;
    SumUnion(rivals, entitled, AskAt(nominated, d));
  }

  /** The prepared sums always cover the own request of a pod with a quota. */
  lemma PreparedCovers(qs: Quotas, pod: Pod, nominated: seq<Pod>)
    requires Chargeable(nominated)
    ensures Covers(Prepared(qs, pod, nominated), qs)
  {
    SumWhereNonNegative(QuotaCounter(qs, pod), nominated);
    SumWhereNonNegative(TotalCounter(qs, pod), nominated);
    CoversSum(SumWhere(QuotaCounter(qs, pod), nominated), Request(pod));
    CoversSum(SumWhere(TotalCounter(qs, pod), nominated), Request(pod));
  }

  lemma CoversSum(others: Resource, own: Resource)
    requires NonNegative(others)
    ensures Dominates(Plus(others, own), own)
    ensures forall d :: Amount(Plus(others, own), d) >= Amount(own, d)
  {
    forall d ensures Amount(Plus(others, own), d) >= Amount(own, d) {
      assert Amount(others, d) >= 0;
    }
  }

  class CapacityScheduling {
    var elasticQuotaInfos: Infos

    ghost predicate Valid()
      reads this
    {
      Separate(elasticQuotaInfos)
    }

    ghost function Quotas(): Quotas
      reads this, elasticQuotaInfos.Values
    {
      Values(elasticQuotaInfos)
    }

    constructor ()
      ensures Valid() && Quotas() == map[]
    {
      elasticQuotaInfos := map[];
    }

    method AddElasticQuota(n: string, b: Bounds)
      requires Valid()
      modifies this
      ensures Valid() && Quotas() == Apply(old(Quotas()), QuotaAdded(n, b))
      ensures forall i :: i in elasticQuotaInfos.Values ==> i in old(elasticQuotaInfos.Values) || fresh(i)
    {
      if n in elasticQuotaInfos { return; }
      var info := new ElasticQuotaInfo(n, b.min, b.max);
      elasticQuotaInfos := elasticQuotaInfos[n := info];
    }

    method UpdateElasticQuota(n: string, b: Bounds)
      requires Valid()
      modifies this
      ensures Valid() && Quotas() == Apply(old(Quotas()), QuotaUpdated(n, b))
      ensures forall i :: i in elasticQuotaInfos.Values ==> i in old(elasticQuotaInfos.Values) || fresh(i)
    {
      var info := new ElasticQuotaInfo(n, b.min, b.max);
      if n in elasticQuotaInfos {
        info.pods := elasticQuotaInfos[n].pods;
        info.used := elasticQuotaInfos[n].used;
      }
      ghost var q := info.Value();
      ghost var qs := Quotas();
      elasticQuotaInfos := elasticQuotaInfos[n := info];
      assert Quotas() == qs[n := q];
    }

    method DeleteElasticQuota(n: string)
      requires Valid()
      modifies this
      ensures Valid() && Quotas() == Apply(old(Quotas()), QuotaDeleted(n))
      ensures elasticQuotaInfos.Values <= old(elasticQuotaInfos.Values)
    {
      elasticQuotaInfos := elasticQuotaInfos - {n};
    }

    method PodAdd(p: Pod, listed: Option<Bounds>)
      requires Valid()
      modifies this, elasticQuotaInfos.Values
      ensures Valid() && Quotas() == Apply(old(Quotas()), PodAdded(p, listed))
      ensures forall i :: i in elasticQuotaInfos.Values ==> i in old(elasticQuotaInfos.Values) || fresh(i)
    {
      if p.namespace !in elasticQuotaInfos {
        if listed.None? { return; }
        var info := new ElasticQuotaInfo(p.namespace, listed.value.min, listed.value.max);
        elasticQuotaInfos := elasticQuotaInfos[p.namespace := info];
        assert Quotas() == old(Quotas())[p.namespace := Create(listed.value)];
      }
      AddPodToInfos(elasticQuotaInfos, p);
    }

    method PodUpdate(p: Pod, oldPhase: Phase, newPhase: Phase)
      requires Valid()
      modifies elasticQuotaInfos.Values
      ensures Valid() && Quotas() == Apply(old(Quotas()), PodUpdated(p, oldPhase, newPhase))
    {
      if oldPhase == Succeeded || oldPhase == Failed { return; }
      if newPhase != Running && newPhase != Pending {
        RemovePodFromInfos(elasticQuotaInfos, p);
      }
    }

    method PodDelete(p: Pod)
      requires Valid()
      modifies elasticQuotaInfos.Values
      ensures Valid() && Quotas() == Apply(old(Quotas()), PodDeleted(p))
    {
      RemovePodFromInfos(elasticQuotaInfos, p);
    }

    method Reserve(p: Pod) returns (status: Status)
      requires Valid()
      modifies elasticQuotaInfos.Values
      ensures Valid() && Quotas() == Apply(old(Quotas()), Reserved(p))
      ensures status == (if p.namespace in elasticQuotaInfos && p.uid == "" then Error else Success)
    {
      if p.namespace in elasticQuotaInfos {
        var ok := elasticQuotaInfos[p.namespace].AddPodIfNotPresent(p);
        if !ok { return Error; }
      }
      return Success;
    }

    method Unreserve(p: Pod)
      requires Valid()
      modifies elasticQuotaInfos.Values
      ensures Valid() && Quotas() == Apply(old(Quotas()), Unreserved(p))
    {
      RemovePodFromInfos(elasticQuotaInfos, p);
    }

    /** PreFilter: snapshot the quotas, sum up the nominated pods, make both quota tests. */
    method PreFilter(pod: Pod, nominated: seq<Pod>) returns (status: Status, pre: Preemptor, snapshot: Infos)
      requires Valid() && Sane(Quotas())
      ensures fresh(snapshot.Values) && Separate(snapshot) && Values(snapshot) == Quotas()
      ensures pre == Prepared(Quotas(), pod, nominated)
      ensures status == (if Trips(pre, Quotas()) then Unschedulable else Success)
    {
      snapshot := CloneInfos(elasticQuotaInfos);
      var podReq := ComputePodResourceRequest(pod);
      ghost var qs := Quotas();
      if pod.namespace !in snapshot {
        return Success, Preemptor(pod, podReq, ZERO, ZERO), snapshot;
      }
      var inQuota, total := ZERO, ZERO;
      ghost var inQuotaOnly, inTotal := QuotaCounter(qs, pod), TotalCounter(qs, pod);
      for k := 0 to |nominated|
        invariant Values(snapshot) == qs
        invariant inQuota == SumWhere(inQuotaOnly, nominated[..k])
        invariant total == SumWhere(inTotal, nominated[..k])
      {
        var p := nominated[k];
        assert nominated[..k + 1][..k] == nominated[..k];
        if p.uid != pod.uid && p.namespace in elasticQuotaInfos {
          var info := elasticQuotaInfos[p.namespace];
          var request := ComputePodResourceRequest(p);
          if p.namespace == pod.namespace && p.priority >= pod.priority {
            inQuota := Plus(inQuota, request);
            total := Plus(total, request);
          } else if p.namespace != pod.namespace && !Exceeds(info.used, ZERO, info.min, LOWER_BOUND_OF_MIN) {
            total := Plus(total, request);
          }
        }
      }
      assert nominated[..|nominated|] == nominated;
      pre := Preemptor(pod, podReq, Plus(inQuota, podReq), Plus(total, podReq));
      var trips := QuotaTrips(pre, snapshot);
      status := if trips then Unschedulable else Success;
    }

    /** What one preemption attempt on a node works on. */
    ghost function Attempt(pod: Pod, nominated: seq<Pod>, pods: seq<Pod>, budgets: seq<Budget>): Input
      reads this, elasticQuotaInfos.Values
    {
      Input(pods, Quotas(), Prepared(Quotas(), pod, nominated), budgets)
    }

    /** A preemption attempt on one node, from PreFilter to the selected victims,
        may change that node's copy but never the live quotas. */
    method TryPreemption(fits: set<Pod> -> bool, selects: Selector, pod: Pod, nominated: seq<Pod>, node: NodeInfo,
                         budgets: seq<Budget>)
        returns (victims: seq<Pod>, status: Status, ghost sel: Selection)
      requires Valid() && Sane(Quotas())
      requires Identified(node.pods) && Chargeable(node.pods) && Chargeable(nominated)
      modifies node
      ensures Valid() && Quotas() == old(Quotas())
      ensures var x := Attempt(pod, nominated, old(node.pods), budgets);
              && Arranged(x, sel)
              && (status == UnschedulableAndUnresolvable <==> Taken(x, sel) == [])
              && (status == Success <==> Promising(fits, x, sel) && !Blocked(fits, x, sel))
              && (status == Error <==> Promising(fits, x, sel) && Blocked(fits, x, sel))
      ensures status == Success ==>
                && Identified(victims) && PodSet(victims) <= PodSet(old(node.pods))
                && PodSet(node.pods) == PodSet(old(node.pods)) - PodSet(victims)
                && fits(PodSet(node.pods))
      ensures status == Success && Tracked(Quotas(), old(node.pods)) ==>
                var pre, left := Prepared(Quotas(), pod, nominated), RemoveAll(Quotas(), victims);
                && WithinQuota(pre, left)
                && (DownClosed(fits) ==> forall v :: v in victims ==>
                  !fits(PodSet(node.pods) + {v}) || Trips(pre, AddPod(left, v)))
    {
      var allowed, pre, snapshot := PreFilter(pod, nominated);
      PreparedCovers(Quotas(), pod, nominated);
      ghost var x := Attempt(pod, nominated, node.pods, budgets);
      var numViolating;
      victims, numViolating, status, sel := SelectVictimsOnNode(fits, selects, pre, node, snapshot, budgets);
      if status == Success {
        SelectionIsSafe(fits, selects, x, sel);
        if Tracked(x.quotas, x.pods) {
          OnlyVictimsAreUncharged(fits, selects, x, sel);
          if DownClosed(fits) {
            forall v | v in victims
              ensures !fits(PodSet(node.pods) + {v}) || Trips(pre, AddPod(RemoveAll(x.quotas, victims), v))
            {
              NoVictimCanBeSpared(fits, selects, x, sel, v);
            }
          }
        }
      }
    }
  }
}
