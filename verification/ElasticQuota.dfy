/** Elastic quotas: the value of one quota and of a table of quotas, the tests
    made against them, and the objects that the plugin updates in place. */
module ElasticQuota {
  import opened Options
  import opened Resources
  import opened Pods
  import opened Sums

  /** The value of one ElasticQuotaInfo. */
  datatype Quota = Quota(min: Resource, max: Resource, used: Resource, pods: set<string>)

  type Quotas = map<string, Quota>

  const NO_MIN := Resource(LOWER_BOUND_OF_MIN, LOWER_BOUND_OF_MIN, LOWER_BOUND_OF_MIN, 0, map[])
  const NO_MAX := Resource(UPPER_BOUND_OF_MAX, UPPER_BOUND_OF_MAX, UPPER_BOUND_OF_MAX, 0, map[])

  /** newElasticQuotaInfo without initial usage: absent bounds get the default lists, which name no pod count. */
  function NewQuota(min: Option<Resource>, max: Option<Resource>): Quota
  {
    Quota(if min.Some? then min.value else NO_MIN, if max.Some? then max.value else NO_MAX, ZERO, {})
  }

  /** addPodIfNotPresent; a pod without a UID has no key and changes nothing. */
  function WithPod(q: Quota, p: Pod): Quota
  {
    if p.uid == "" || p.uid in q.pods then q
    else q.(pods := q.pods + {p.uid}, used := Plus(q.used, Request(p)))
  }

  /** deletePodIfPresent */
  function WithoutPod(q: Quota, p: Pod): Quota
  {
    if p.uid == "" || p.uid !in q.pods then q
    else q.(pods := q.pods - {p.uid}, used := Minus(q.used, Request(p)))
  }

  function AddPod(qs: Quotas, p: Pod): Quotas
  {
    if p.namespace in qs then qs[p.namespace := WithPod(qs[p.namespace], p)] else qs
  }

  function RemovePod(qs: Quotas, p: Pod): Quotas
  {
    if p.namespace in qs then qs[p.namespace := WithoutPod(qs[p.namespace], p)] else qs
  }

  predicate OverMinWith(q: Quota, request: Resource) { Exceeds(request, q.used, q.min, LOWER_BOUND_OF_MIN) }

  predicate OverMaxWith(q: Quota, request: Resource) { Exceeds(request, q.used, q.max, UPPER_BOUND_OF_MAX) }

  predicate OverMin(q: Quota) { Exceeds(q.used, ZERO, q.min, LOWER_BOUND_OF_MIN) }

  /** Some amount that the request lists, with what is in use, is above the minimum, which is
      zero where the quota lists none. */
  ghost predicate AboveMinWith(q: Quota, request: Resource)
  {
    exists d :: Listed(request, d) &&
      Amount(request, d) + Amount(q.used, d) > (if Listed(q.min, d) then Amount(q.min, d) else 0)
  }

  /** The same for the maximum, which is the largest 64-bit number where the quota lists none. */
  ghost predicate AboveMaxWith(q: Quota, request: Resource)
  {
    exists d :: Listed(request, d) &&
      Amount(request, d) + Amount(q.used, d) > (if Listed(q.max, d) then Amount(q.max, d) else 0x7fff_ffff_ffff_ffff)
  }

  /** More is in use of something than the minimum guarantees. */
  ghost predicate AboveMin(q: Quota)
  {
    exists d :: Amount(q.used, d) > Amount(q.min, d)
  }

  /** The three tests of one quota in numbers. */
  lemma TestsInNumbers(q: Quota, request: Resource)
    ensures OverMinWith(q, request) <==> AboveMinWith(q, request)
    ensures OverMaxWith(q, request) <==> AboveMaxWith(q, request)
    ensures NonNegative(q.min) ==> (OverMin(q) <==> AboveMin(q))
  {
    ExceedsIff(request, q.used, q.min, LOWER_BOUND_OF_MIN);
    ExceedsIff(request, q.used, q.max, UPPER_BOUND_OF_MAX);
    if NonNegative(q.min) {
      ExceedsMinIff(q.used, ZERO, q.min);
      assert forall d :: Amount(ZERO, d) == 0;
    }
  }

  ghost function UsedIn(qs: Quotas, d: Dimension): string -> int
  {
    n => if n in qs then Amount(qs[n].used, d) else 0
  }

  ghost function MinIn(qs: Quotas, d: Dimension): string -> int
  {
    n => if n in qs then Amount(qs[n].min, d) else 0
  }

  ghost function TotalUsed(qs: Quotas, d: Dimension): int { Sum(qs.Keys, UsedIn(qs, d)) }

  ghost function TotalMin(qs: Quotas, d: Dimension): int { Sum(qs.Keys, MinIn(qs, d)) }

  /** All quotas together, plus the request, need more than all the guaranteed minimums. */
  ghost predicate AggregateOverMinWith(qs: Quotas, request: Resource)
  {
    exists d :: TotalUsed(qs, d) + Amount(request, d) > TotalMin(qs, d)
  }

  /** The totals are sums over the quotas, told one quota at a time. */
  lemma TotalsAreSums(qs: Quotas, n: string, q: Quota, d: Dimension)
    requires n !in qs
    ensures TotalUsed(map[], d) == 0 && TotalMin(map[], d) == 0
    ensures TotalUsed(qs[n := q], d) == TotalUsed(qs, d) + Amount(q.used, d)
    ensures TotalMin(qs[n := q], d) == TotalMin(qs, d) + Amount(q.min, d)
  {
    var more := qs[n := q];
    assert more.Keys == qs.Keys + {n};
    SumInsert(qs.Keys, UsedIn(more, d), n);
    SumInsert(qs.Keys, MinIn(more, d), n);
    SumSame(qs.Keys, UsedIn(more, d), UsedIn(qs, d));
    SumSame(qs.Keys, MinIn(more, d), MinIn(qs, d));
  }

  /** Quota minimums are quantities, never negative. */
  ghost predicate Sane(qs: Quotas)
  {
    forall n :: n in qs ==> NonNegative(qs[n].min)
  }

  /** Same bounds, same pods and the same amounts in use; the scalars listed may differ. */
  ghost predicate Same(a: Quotas, b: Quotas)
  {
    && a.Keys == b.Keys
    && forall n :: n in a ==>
         && a[n].min == b[n].min && a[n].max == b[n].max && a[n].pods == b[n].pods
         && forall d :: Amount(a[n].used, d) == Amount(b[n].used, d)
  }

  /** An ElasticQuotaInfo object. */
  class ElasticQuotaInfo {
    const namespace: string
    var min: Resource
    var max: Resource
    var used: Resource
    var pods: set<string>

    ghost function Value(): Quota
      reads this
    {
      Quota(min, max, used, pods)
    }

    constructor (namespace: string, min: Option<Resource>, max: Option<Resource>)
      ensures this.namespace == namespace && Value() == NewQuota(min, max)
    {
      this.namespace := namespace;
      this.min := if min.Some? then min.value else NO_MIN;
      this.max := if max.Some? then max.value else NO_MAX;
      used := ZERO;
      pods := {};
    }

    constructor Clone(original: ElasticQuotaInfo)
      ensures namespace == original.namespace && Value() == original.Value()
    {
      namespace := original.namespace;
      min := original.min;
      max := original.max;
      used := original.used;
      pods := original.pods;
    }

    method ReserveResource(request: Resource)
      modifies this`used
      ensures used == Plus(old(used), request)
    {
      used := Resource(used.milliCPU + request.milliCPU, used.memory + request.memory,
                       used.ephemeralStorage + request.ephemeralStorage,
                       used.allowedPodNumber + request.allowedPodNumber, used.scalars);
      var names := request.scalars.Keys;
      while names != {}
        invariant names <= request.scalars.Keys
        invariant used == Plus(old(used), request).(scalars := used.scalars)
        invariant used.scalars.Keys == old(used).scalars.Keys + (request.scalars.Keys - names)
        invariant forall n :: n in used.scalars ==>
                    used.scalars[n] == ScalarOf(old(used), n) + (if n in names then 0 else ScalarOf(request, n))
        decreases names
      {
        var n :| n in names;
        used := used.(scalars := used.scalars[n := ScalarOf(used, n) + request.scalars[n]]);
        names := names - {n};
      }
      assert used.scalars == Plus(old(used), request).scalars;
    }

    method UnreserveResource(request: Resource)
      modifies this`used
      ensures used == Minus(old(used), request)
    {
      used := Resource(used.milliCPU - request.milliCPU, used.memory - request.memory,
                       used.ephemeralStorage - request.ephemeralStorage,
                       used.allowedPodNumber - request.allowedPodNumber, used.scalars);
      var names := request.scalars.Keys;
      while names != {}
        invariant names <= request.scalars.Keys
        invariant used == Minus(old(used), request).(scalars := used.scalars)
        invariant used.scalars.Keys == old(used).scalars.Keys + (request.scalars.Keys - names)
        invariant forall n :: n in used.scalars ==>
                    used.scalars[n] == ScalarOf(old(used), n) - (if n in names then 0 else ScalarOf(request, n))
        decreases names
      {
        var n :| n in names;
        used := used.(scalars := used.scalars[n := ScalarOf(used, n) - request.scalars[n]]);
        names := names - {n};
      }
      assert used.scalars == Minus(old(used), request).scalars;
    }

    method AddPodIfNotPresent(p: Pod) returns (ok: bool)
      modifies this
      ensures ok == (p.uid != "")
      ensures Value() == WithPod(old(Value()), p)
    {
      if p.uid == "" { return false; }
      if p.uid in pods { return true; }
      pods := pods + {p.uid};
      var request := ComputePodResourceRequest(p);
      ReserveResource(request);
      return true;
    }

    method DeletePodIfPresent(p: Pod) returns (ok: bool)
      modifies this
      ensures ok == (p.uid != "")
      ensures Value() == WithoutPod(old(Value()), p)
    {
      if p.uid == "" { return false; }
      if p.uid !in pods { return true; }
      pods := pods - {p.uid};
      var request := ComputePodResourceRequest(p);
      UnreserveResource(request);
      return true;
    }
  }

  /** ElasticQuotaInfos: quota objects by namespace. */
  type Infos = map<string, ElasticQuotaInfo>

  /** Quota objects are filed under their own namespace, so no two namespaces share one. */
  ghost predicate Separate(infos: Infos)
  {
    forall n :: n in infos ==> infos[n].namespace == n
  }

  ghost function Values(infos: Infos): Quotas
    reads infos.Values
  {
    map n | n in infos :: infos[n].Value()
  }

  /** ElasticQuotaInfos.clone: every quota object of the result is new. */
  method CloneInfos(infos: Infos) returns (copy: Infos)
    requires Separate(infos)
    ensures Separate(copy)
    ensures fresh(copy.Values)
    ensures Values(copy) == Values(infos)
  {
    copy := map[];
    var names := infos.Keys;
    while names != {}
      invariant names <= infos.Keys
      invariant copy.Keys == infos.Keys - names
      invariant forall n :: n in copy ==> fresh(copy[n])
      invariant Separate(copy)
      invariant forall n :: n in copy ==> copy[n].Value() == infos[n].Value()
      decreases names
    {
      var n :| n in names;
      var c := new ElasticQuotaInfo.Clone(infos[n]);
      copy := copy[n := c];
      names := names - {n};
    }
  }

  /** The AddPod extension point: charge the snapshot for a pod put back on the node. */
  method AddPodToInfos(infos: Infos, p: Pod)
    requires Separate(infos)
    modifies infos.Values
    ensures Values(infos) == AddPod(old(Values(infos)), p)
  {
    if p.namespace in infos {
      var _ := infos[p.namespace].AddPodIfNotPresent(p);
    }
  }

  /** The RemovePod extension point. */
  method RemovePodFromInfos(infos: Infos, p: Pod)
    requires Separate(infos)
    modifies infos.Values
    ensures Values(infos) == RemovePod(old(Values(infos)), p)
  {
    if p.namespace in infos {
      var _ := infos[p.namespace].DeletePodIfPresent(p);
    }
  }

  /** aggregatedUsedOverMinWith: sums over all quotas, whatever the map order. */
  method AggregatedUsedOverMinWith(infos: Infos, request: Resource) returns (over: bool)
    requires Sane(Values(infos))
    ensures over <==> AggregateOverMinWith(Values(infos), request)
  {
    var used, min := ZERO, ZERO;
    var names := infos.Keys;
    ghost var qs := Values(infos);
    while names != {}
      invariant names <= infos.Keys
      invariant forall d :: Amount(used, d) == Sum(infos.Keys - names, UsedIn(qs, d))
      invariant forall d :: Amount(min, d) == Sum(infos.Keys - names, MinIn(qs, d))
      invariant NonNegative(min)
      decreases names
    {
      var n :| n in names;
      ghost var seen := infos.Keys - names;
      used := Plus(used, infos[n].used);
      min := Plus(min, infos[n].min);
      names := names - {n};
      forall d ensures Sum(seen + {n}, UsedIn(qs, d)) == Sum(seen, UsedIn(qs, d)) + Amount(qs[n].used, d)
               ensures Sum(seen + {n}, MinIn(qs, d)) == Sum(seen, MinIn(qs, d)) + Amount(qs[n].min, d) {
        SumInsert(seen, UsedIn(qs, d), n);
        SumInsert(seen, MinIn(qs, d), n);
      }
      assert infos.Keys - names == seen + {n};
      assert NonNegative(qs[n].min);
    }
    assert infos.Keys - names == qs.Keys;
    used := Plus(used, request);
    ExceedsMinIff(used, ZERO, min);
    over := Exceeds(used, ZERO, min, LOWER_BOUND_OF_MIN);
  }

  lemma SameTotals(a: Quotas, b: Quotas, d: Dimension)
    requires Same(a, b)
    ensures TotalUsed(a, d) == TotalUsed(b, d) && TotalMin(a, d) == TotalMin(b, d)
  {
    SumSame(a.Keys, UsedIn(a, d), UsedIn(b, d));
    SumSame(a.Keys, MinIn(a, d), MinIn(b, d));
  }

  /** Every test that the plugin makes reads only what Same preserves. */
  lemma SameTests(a: Quotas, b: Quotas, request: Resource)
    requires Same(a, b) && Sane(a)
    ensures AggregateOverMinWith(a, request) <==> AggregateOverMinWith(b, request)
    ensures forall n :: n in a ==> (OverMaxWith(a[n], request) <==> OverMaxWith(b[n], request))
    ensures forall n :: n in a ==> (OverMin(a[n]) <==> OverMin(b[n]))
  {
    forall d { SameTotals(a, b, d); }
    forall n | n in a
      ensures OverMaxWith(a[n], request) <==> OverMaxWith(b[n], request)
      ensures OverMin(a[n]) <==> OverMin(b[n])
    {
      ExceedsIff(request, a[n].used, a[n].max, UPPER_BOUND_OF_MAX);
      ExceedsIff(request, b[n].used, b[n].max, UPPER_BOUND_OF_MAX);
      ExceedsMinIff(a[n].used, ZERO, a[n].min);
      ExceedsMinIff(b[n].used, ZERO, b[n].min);
    }
  }

  /** A pod that is put back and taken away again leaves no trace. */
  lemma AddThenRemove(qs: Quotas, p: Pod)
    requires p.namespace in qs ==> p.uid !in qs[p.namespace].pods
    ensures Same(RemovePod(AddPod(qs, p), p), qs)
  {
    if p.namespace in qs && p.uid != "" {
      var q := qs[p.namespace];
      assert WithoutPod(WithPod(q, p), p).pods == q.pods;
    }
  }

  lemma SameStep(a: Quotas, b: Quotas, p: Pod)
    requires Same(a, b)
    ensures Same(AddPod(a, p), AddPod(b, p))
    ensures Same(RemovePod(a, p), RemovePod(b, p))
  {
  }

  /** No quota of b has less in use than in a. */
  ghost predicate NoMoreUsed(a: Quotas, b: Quotas)
  {
    && a.Keys == b.Keys
    && forall n :: n in a ==>
         && a[n].min == b[n].min && a[n].max == b[n].max
         && forall d :: Amount(a[n].used, d) <= Amount(b[n].used, d)
  }

  /** The quota tests are monotone in what is in use. */
  lemma TestsMonotone(a: Quotas, b: Quotas, request: Resource)
    requires NoMoreUsed(a, b) && Sane(a)
    ensures AggregateOverMinWith(a, request) ==> AggregateOverMinWith(b, request)
    ensures forall n :: n in a && OverMaxWith(a[n], request) ==> OverMaxWith(b[n], request)
    ensures forall n :: n in a && OverMin(a[n]) ==> OverMin(b[n])
  {
    if AggregateOverMinWith(a, request) {
      var d :| TotalUsed(a, d) + Amount(request, d) > TotalMin(a, d);
      SumMonotone(a.Keys, UsedIn(a, d), UsedIn(b, d));
      SumSame(a.Keys, MinIn(a, d), MinIn(b, d));
      assert TotalUsed(b, d) + Amount(request, d) > TotalMin(b, d);
    }
    forall n | n in a && OverMaxWith(a[n], request) ensures OverMaxWith(b[n], request) {
      ExceedsMonotone(request, a[n].used, b[n].used, a[n].max, UPPER_BOUND_OF_MAX);
    }
    forall n | n in a && OverMin(a[n]) ensures OverMin(b[n]) {
      ExceedsMinIff(a[n].used, ZERO, a[n].min);
      ExceedsMinIff(b[n].used, ZERO, b[n].min);
      var d :| Amount(a[n].used, d) + Amount(ZERO, d) > Amount(a[n].min, d);
      assert Amount(b[n].used, d) + Amount(ZERO, d) > Amount(b[n].min, d);
    }
  }
}
