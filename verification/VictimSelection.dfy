/** What the quota-aware victim selection computes, as functions of the node's
    pods and of the quota snapshot, and what holds of its successful results. */
module VictimSelection {
  import opened Resources
  import opened Pods
  import opened ElasticQuota
  import opened Sums
  import opened Reprieve
  import opened DisruptionBudgets

  /** The pod to be scheduled, with the sums that PreFilter left in the cycle state. */
  datatype Preemptor = Preemptor(
    pod: Pod,
    podReq: Resource,
    nominatedInQuota: Resource,
    nominatedTotal: Resource)

  function PodSet(s: seq<Pod>): set<Pod> { set p | p in s }

  /** Pods on a node have UIDs, all different. */
  ghost predicate Identified(s: seq<Pod>)
  {
    && (forall i :: 0 <= i < |s| ==> s[i].uid != "")
    && forall i, j :: 0 <= i < j < |s| ==> s[i].uid != s[j].uid
  }

  ghost predicate Chargeable(s: seq<Pod>)
  {
    forall p :: p in s ==> NonNegative(Request(p))
  }

  ghost predicate Untracked(qs: Quotas, s: seq<Pod>)
  {
    forall p :: p in s && p.namespace in qs ==> p.uid !in qs[p.namespace].pods
  }

  ghost predicate Tracked(qs: Quotas, s: seq<Pod>)
  {
    forall p :: p in s && p.namespace in qs ==> p.uid in qs[p.namespace].pods
  }

  ghost function RemoveAll(qs: Quotas, s: seq<Pod>): Quotas
  {
    if s == [] then qs else RemovePod(RemoveAll(qs, s[..|s| - 1]), s[|s| - 1])
  }

  ghost function AddAll(qs: Quotas, s: seq<Pod>): Quotas
  {
    if s == [] then qs else AddPod(AddAll(qs, s[..|s| - 1]), s[|s| - 1])
  }

  /** The preemptor's quota would be above its minimum with the preemptor in it. */
  predicate MoreThanMinWithPreemptor(pre: Preemptor, qs: Quotas)
  {
    pre.pod.namespace in qs && OverMinWith(qs[pre.pod.namespace], pre.nominatedInQuota)
  }

  /** May this pod be taken, given what is in use now? `moreThanMin` was settled before any removal. */
  predicate Eligible(pre: Preemptor, moreThanMin: bool, qs: Quotas, p: Pod)
  {
    if pre.pod.namespace in qs then
      && p.namespace in qs
      && if moreThanMin
         then p.namespace == pre.pod.namespace && p.priority < pre.pod.priority
         else p.namespace != pre.pod.namespace && OverMin(qs[p.namespace])
    else
      p.namespace !in qs && p.priority < pre.pod.priority
  }

  /** The pods taken off the node, in the order of their removal. */
  ghost function Candidates(pre: Preemptor, qs: Quotas, order: seq<Pod>): seq<Pod>
  {
    if order == [] then []
    else
      var n := |order| - 1;
      var taken := Candidates(pre, qs, order[..n]);
      if Eligible(pre, MoreThanMinWithPreemptor(pre, qs), RemoveAll(qs, taken), order[n])
      then taken + [order[n]] else taken
  }

  /** The quota test of the reprieve, which counts the nominated pods as well. */
  ghost predicate Trips(pre: Preemptor, qs: Quotas)
  {
    pre.pod.namespace in qs &&
    (OverMaxWith(qs[pre.pod.namespace], pre.nominatedInQuota) || AggregateOverMinWith(qs, pre.nominatedTotal))
  }

  /** The quota test made once all candidates are gone. */
  ghost predicate WithinQuota(pre: Preemptor, qs: Quotas)
  {
    pre.pod.namespace in qs ==>
      !OverMaxWith(qs[pre.pod.namespace], pre.podReq) && !AggregateOverMinWith(qs, pre.podReq)
  }

  /** The reprieve loop. A candidate that fits neither the filters nor leaves the
      quota test quiet would be removed twice, and the second removal is an error. */
  datatype Trial =
    | Trial(kept: seq<Pod>, victims: seq<Pod>, misfits: nat, quotas: Quotas)
    | DoubleRemoval

  ghost function TryPod(fits: set<Pod> -> bool, pre: Preemptor, rest: set<Pod>, t: Trial, p: Pod): Trial
    requires t.Trial?
  {
    var with := AddPod(t.quotas, p);
    var without := RemovePod(with, p);
    if !fits(rest + PodSet(t.kept + [p])) then
      if Trips(pre, without) then DoubleRemoval
      else Trial(t.kept, t.victims + [p], t.misfits + 1, without)
    else if Trips(pre, with) then Trial(t.kept, t.victims + [p], t.misfits, without)
    else Trial(t.kept + [p], t.victims, t.misfits, with)
  }

  ghost function Reprieves(fits: set<Pod> -> bool, pre: Preemptor, rest: set<Pod>, qs: Quotas,
                           candidates: seq<Pod>): Trial
  {
    if candidates == [] then Trial([], [], 0, qs)
    else
      var n := |candidates| - 1;
      var t := Reprieves(fits, pre, rest, qs, candidates[..n]);
      if t.DoubleRemoval? then DoubleRemoval else TryPod(fits, pre, rest, t, candidates[n])
  }

  /** Only pods that fail the filters are counted as misfits: without a quota that is every victim. */
  lemma {:induction false} MisfitsAreVictims(
      fits: set<Pod> -> bool, pre: Preemptor, rest: set<Pod>, qs: Quotas, candidates: seq<Pod>)
    requires Reprieves(fits, pre, rest, qs, candidates).Trial?
    ensures var t := Reprieves(fits, pre, rest, qs, candidates);
            && t.misfits <= |t.victims| && (pre.pod.namespace !in qs ==> t.misfits == |t.victims|)
            && ((forall a :: fits(a)) ==> t.misfits == 0) && t.quotas.Keys == qs.Keys
  {
    if candidates != [] { MisfitsAreVictims(fits, pre, rest, qs, candidates[..|candidates| - 1]); }
  }

  lemma {:induction false} DoubleRemovalStays(fits: set<Pod> -> bool, pre: Preemptor, rest: set<Pod>, qs: Quotas,
                                              candidates: seq<Pod>, i: nat)
    requires i <= |candidates|
    requires Reprieves(fits, pre, rest, qs, candidates[..i]).DoubleRemoval?
    ensures Reprieves(fits, pre, rest, qs, candidates).DoubleRemoval?
  {
    if i == |candidates| {
      assert candidates[..i] == candidates;
    } else {
      var n := |candidates| - 1;
      assert candidates[..n][..i] == candidates[..i];
      DoubleRemovalStays(fits, pre, rest, qs, candidates[..n], i);
    }
  }

  // ---- Effect of removals and additions on the quotas ----

  lemma {:induction false} RemoveAllFacts(qs: Quotas, s: seq<Pod>)
    requires Chargeable(s)
    ensures NoMoreUsed(RemoveAll(qs, s), qs)
    ensures forall p :: p in s && p.uid != "" && p.namespace in qs ==>
              p.uid !in RemoveAll(qs, s)[p.namespace].pods
    ensures forall n :: n in qs ==> RemoveAll(qs, s)[n].pods <= qs[n].pods
  {
    if s != [] {
      var n := |s| - 1;
      RemoveAllFacts(qs, s[..n]);
      assert NonNegative(Request(s[n]));
      assert forall p :: p in s ==> p in s[..n] || p == s[n];
    }
  }

  ghost predicate Mentions(s: seq<Pod>, n: string, u: string)
  {
    exists p :: p in s && p.namespace == n && p.uid == u
  }

  lemma MentionsAppend(s: seq<Pod>, n: string, u: string)
    requires s != []
    ensures var k := |s| - 1;
            Mentions(s, n, u) <==> Mentions(s[..k], n, u) || (s[k].namespace == n && s[k].uid == u)
  {
    var k := |s| - 1;
    assert forall p :: p in s <==> p in s[..k] || p == s[k];
  }

  lemma {:induction false} AddAllPods(qs: Quotas, s: seq<Pod>, n: string, u: string)
    requires forall p :: p in s ==> p.uid != ""
    requires n in qs
    ensures AddAll(qs, s).Keys == qs.Keys
    ensures u in AddAll(qs, s)[n].pods <==> u in qs[n].pods || Mentions(s, n, u)
    ensures AddAll(qs, s)[n].min == qs[n].min && AddAll(qs, s)[n].max == qs[n].max
  {
    if s != [] {
      AddAllPods(qs, s[..|s| - 1], n, u);
      MentionsAppend(s, n, u);
    }
  }

  lemma {:induction false} RemoveAllPods(qs: Quotas, s: seq<Pod>, n: string, u: string)
    requires forall p :: p in s ==> p.uid != ""
    requires n in qs
    ensures RemoveAll(qs, s).Keys == qs.Keys
    ensures u in RemoveAll(qs, s)[n].pods <==> u in qs[n].pods && !Mentions(s, n, u)
    ensures RemoveAll(qs, s)[n].min == qs[n].min && RemoveAll(qs, s)[n].max == qs[n].max
  {
    if s != [] {
      RemoveAllPods(qs, s[..|s| - 1], n, u);
      MentionsAppend(s, n, u);
    }
  }

  ghost function ChargeTo(n: string, d: Dimension): Pod -> int
  {
    (p: Pod) => if p.namespace == n then Amount(Request(p), d) else 0
  }

  lemma PodSetAppend(s: seq<Pod>)
    requires s != [] && Identified(s)
    ensures PodSet(s) == PodSet(s[..|s| - 1]) + {s[|s| - 1]}
    ensures s[|s| - 1] !in PodSet(s[..|s| - 1])
    ensures Identified(s[..|s| - 1])
  {
    var n := |s| - 1;
    assert forall p :: p in s <==> p in s[..n] || p == s[n];
  }

  lemma {:induction false} AddAllAmounts(qs: Quotas, s: seq<Pod>, n: string, d: Dimension)
    requires Identified(s) && Untracked(qs, s) && n in qs
    ensures n in AddAll(qs, s)
    ensures Amount(AddAll(qs, s)[n].used, d) == Amount(qs[n].used, d) + Sum(PodSet(s), ChargeTo(n, d))
  {
    if s != [] {
      var k := |s| - 1;
      var p := s[k];
      PodSetAppend(s);
      AddAllAmounts(qs, s[..k], n, d);
      AddAllPods(qs, s[..k], n, p.uid);
      assert !Mentions(s[..k], p.namespace, p.uid);
      SumInsert(PodSet(s[..k]), ChargeTo(n, d), p);
    } else {
      assert PodSet(s) == {};
    }
  }

  lemma {:induction false} RemoveAllAmounts(qs: Quotas, s: seq<Pod>, n: string, d: Dimension)
    requires Identified(s) && Tracked(qs, s) && n in qs
    ensures n in RemoveAll(qs, s)
    ensures Amount(RemoveAll(qs, s)[n].used, d) == Amount(qs[n].used, d) - Sum(PodSet(s), ChargeTo(n, d))
  {
    if s != [] {
      var k := |s| - 1;
      var p := s[k];
      PodSetAppend(s);
      RemoveAllAmounts(qs, s[..k], n, d);
      RemoveAllPods(qs, s[..k], n, p.uid);
      assert !Mentions(s[..k], p.namespace, p.uid);
      SumInsert(PodSet(s[..k]), ChargeTo(n, d), p);
    } else {
      assert PodSet(s) == {};
    }
  }

  // ---- The candidates ----

  lemma {:induction false} CandidatesAreOnNode(pre: Preemptor, qs: Quotas, order: seq<Pod>)
    requires Identified(order)
    ensures Identified(Candidates(pre, qs, order))
    ensures forall p :: p in Candidates(pre, qs, order) ==> p in order
  {
    if order != [] {
      var n := |order| - 1;
      PodSetAppend(order);
      CandidatesAreOnNode(pre, qs, order[..n]);
      AppendIdentified(order, Candidates(pre, qs, order[..n]));
    }
  }

  lemma AppendIdentified(order: seq<Pod>, taken: seq<Pod>)
    requires order != [] && Identified(order) && Identified(taken)
    requires forall p :: p in taken ==> p in order[..|order| - 1]
    ensures Identified(taken + [order[|order| - 1]])
  {
    var n := |order| - 1;
    forall i | 0 <= i < |taken| ensures taken[i].uid != order[n].uid {
      assert taken[i] in taken;
      var j :| 0 <= j < n && order[..n][j] == taken[i];
      assert order[j] == taken[i];
    }
  }

  /** Every candidate was eligible at the moment of its removal. */
  lemma {:induction false} CandidateWasEligible(pre: Preemptor, qs: Quotas, order: seq<Pod>, i: nat)
    requires i < |Candidates(pre, qs, order)|
    ensures var c := Candidates(pre, qs, order);
            Eligible(pre, MoreThanMinWithPreemptor(pre, qs), RemoveAll(qs, c[..i]), c[i])
  {
    var n := |order| - 1;
    var taken := Candidates(pre, qs, order[..n]);
    var c := Candidates(pre, qs, order);
    if i < |taken| {
      CandidateWasEligible(pre, qs, order[..n], i);
      assert c[i] == taken[i] && c[..i] == taken[..i];
    } else {
      assert c == taken + [order[n]] && c[..i] == taken;
    }
  }

  // ---- The successful reprieve is the simple greedy one ----

  /** What the reprieve accepts: filters and quota test, judged from scratch on the pods put back. */
  ghost function Acceptable(fits: set<Pod> -> bool, pre: Preemptor, rest: set<Pod>, qs: Quotas): seq<Pod> -> bool
  {
    kept => fits(rest + PodSet(kept)) && !Trips(pre, AddAll(qs, kept))
  }

  lemma TripsSame(pre: Preemptor, a: Quotas, b: Quotas)
    requires Same(a, b) && Sane(a)
    ensures Trips(pre, a) <==> Trips(pre, b)
    ensures WithinQuota(pre, a) <==> WithinQuota(pre, b)
  {
    SameTests(a, b, pre.nominatedInQuota);
    SameTests(a, b, pre.nominatedTotal);
    SameTests(a, b, pre.podReq);
  }

  lemma SaneAddAll(qs: Quotas, s: seq<Pod>)
    requires Sane(qs) && forall p :: p in s ==> p.uid != ""
    ensures Sane(AddAll(qs, s)) && AddAll(qs, s).Keys == qs.Keys
  {
    forall n | n in qs ensures n in AddAll(qs, s) && AddAll(qs, s)[n].min == qs[n].min { AddAllPods(qs, s, n, ""); }
    AddAllKeys(qs, s);
  }

  lemma StepRefines(fits: set<Pod> -> bool, pre: Preemptor, rest: set<Pod>, qs: Quotas, t: Trial, p: Pod)
    requires t.Trial? && Sane(qs) && (forall y :: y in t.kept ==> y.uid != "")
    requires Same(t.quotas, AddAll(qs, t.kept))
    requires p.namespace in t.quotas ==> p.uid !in t.quotas[p.namespace].pods
    requires TryPod(fits, pre, rest, t, p).Trial?
    ensures var t' := TryPod(fits, pre, rest, t, p);
            && Same(t'.quotas, AddAll(qs, t'.kept))
            && if Allows(Acceptable(fits, pre, rest, qs), t.kept, p)
               then t'.kept == t.kept + [p] && t'.victims == t.victims
               else t'.kept == t.kept && t'.victims == t.victims + [p]
  {
    var model := AddAll(qs, t.kept);
    assert (t.kept + [p])[..|t.kept|] == t.kept;
    assert AddAll(qs, t.kept + [p]) == AddPod(model, p);
    SaneAddAll(qs, t.kept);
    AddThenRemove(t.quotas, p);
    SameStep(t.quotas, model, p);
    TripsSame(pre, AddPod(model, p), AddPod(t.quotas, p));
  }

  /** A candidate still to be tried is not charged in the snapshot. */
  lemma NotYetCharged(qs: Quotas, candidates: seq<Pod>, kept: seq<Pod>, quotas: Quotas)
    requires candidates != [] && Identified(candidates) && Untracked(qs, candidates)
    requires forall y :: y in kept ==> y in candidates[..|candidates| - 1]
    requires Same(quotas, AddAll(qs, kept))
    ensures var p := candidates[|candidates| - 1];
            p.namespace in quotas ==> p.uid !in quotas[p.namespace].pods
  {
    var n := |candidates| - 1;
    var p := candidates[n];
    forall y | y in kept ensures y.uid != "" && y.uid != p.uid {
      assert y in candidates[..n];
      var j :| 0 <= j < n && candidates[..n][j] == y;
      assert candidates[j] == y;
    }
    if p.namespace in qs {
      AddAllPods(qs, kept, p.namespace, p.uid);
      assert p in candidates;
    } else {
      AddAllKeys(qs, kept);
    }
  }

  lemma {:induction false} AddAllKeys(qs: Quotas, s: seq<Pod>)
    ensures AddAll(qs, s).Keys == qs.Keys
  {
    if s != [] { AddAllKeys(qs, s[..|s| - 1]); }
  }

  /** Every successful run of the in-place loop gives what the simple greedy gives,
      and leaves the snapshot charged for exactly the pods put back. */
  lemma {:induction false} ReprievesRefinesRun(fits: set<Pod> -> bool, pre: Preemptor, rest: set<Pod>, qs: Quotas,
                                               candidates: seq<Pod>)
    requires Identified(candidates) && Untracked(qs, candidates) && Sane(qs)
    requires Reprieves(fits, pre, rest, qs, candidates).Trial?
    ensures var t := Reprieves(fits, pre, rest, qs, candidates);
            && Outcome(t.kept, t.victims) == Run(Acceptable(fits, pre, rest, qs), candidates)
            && (forall p :: p in t.kept ==> p in candidates)
            && Same(t.quotas, AddAll(qs, t.kept))
  {
    if candidates != [] {
      var n := |candidates| - 1;
      PodSetAppend(candidates);
      ReprievesRefinesRun(fits, pre, rest, qs, candidates[..n]);
      var t := Reprieves(fits, pre, rest, qs, candidates[..n]);
      assert forall x :: x in t.kept ==> x in candidates[..n] && x in candidates;
      NotYetCharged(qs, candidates, t.kept, t.quotas);
      StepRefines(fits, pre, rest, qs, t, candidates[n]);
    }
  }

  // ---- Safety of the result ----

  /** For a preemptor with a quota, the nominated sums cover its own request. */
  ghost predicate Covers(pre: Preemptor, qs: Quotas)
  {
    pre.pod.namespace in qs ==>
      && Dominates(pre.nominatedInQuota, pre.podReq)
      && forall d :: Amount(pre.nominatedTotal, d) >= Amount(pre.podReq, d)
  }

  lemma QuietImpliesWithin(pre: Preemptor, qs: Quotas)
    requires Covers(pre, qs)
    ensures !Trips(pre, qs) ==> WithinQuota(pre, qs)
  {
    if pre.pod.namespace in qs {
      var q := qs[pre.pod.namespace];
      if OverMaxWith(q, pre.podReq) {
        ExceedsDominated(pre.podReq, pre.nominatedInQuota, q.used, q.max, UPPER_BOUND_OF_MAX);
      } else if AggregateOverMinWith(qs, pre.podReq) {
        var d :| TotalUsed(qs, d) + Amount(pre.podReq, d) > TotalMin(qs, d);
        assert TotalUsed(qs, d) + Amount(pre.nominatedTotal, d) > TotalMin(qs, d);
      }
    }
  }

  lemma {:induction false} ReprievesStaySafe(fits: set<Pod> -> bool, pre: Preemptor, rest: set<Pod>, qs: Quotas,
                                             candidates: seq<Pod>)
    requires Identified(candidates) && Untracked(qs, candidates) && Sane(qs)
    requires Reprieves(fits, pre, rest, qs, candidates).Trial?
    requires Covers(pre, qs) && fits(rest) && WithinQuota(pre, qs)
    ensures var t := Reprieves(fits, pre, rest, qs, candidates);
            fits(rest + PodSet(t.kept)) && WithinQuota(pre, t.quotas)
  {
    if candidates == [] {
      assert rest + PodSet([]) == rest;
    } else {
      var n := |candidates| - 1;
      PodSetAppend(candidates);
      ReprievesStaySafe(fits, pre, rest, qs, candidates[..n]);
      ReprievesRefinesRun(fits, pre, rest, qs, candidates[..n]);
      ReprievesRefinesRun(fits, pre, rest, qs, candidates);
      assert forall p :: p in candidates ==> p.uid != "";
      var t := Reprieves(fits, pre, rest, qs, candidates[..n]);
      AddAllKeys(qs, t.kept);
      StepStaysSafe(fits, pre, rest, t, candidates[n], qs);
    }
  }

  lemma StepStaysSafe(fits: set<Pod> -> bool, pre: Preemptor, rest: set<Pod>, t: Trial, p: Pod, qs: Quotas)
    requires t.Trial? && TryPod(fits, pre, rest, t, p).Trial? && Covers(pre, t.quotas) && Sane(qs)
    requires (forall y :: y in t.kept ==> y.uid != "") && Same(t.quotas, AddAll(qs, t.kept))
    requires var t' := TryPod(fits, pre, rest, t, p); Same(t'.quotas, AddAll(qs, t'.kept))
    requires fits(rest + PodSet(t.kept)) && WithinQuota(pre, t.quotas)
    ensures var t' := TryPod(fits, pre, rest, t, p); fits(rest + PodSet(t'.kept)) && WithinQuota(pre, t'.quotas)
  {
    var t' := TryPod(fits, pre, rest, t, p);
    if t'.kept == t.kept {
      SaneAddAll(qs, t.kept);
      TripsSame(pre, AddAll(qs, t.kept), t.quotas);
      TripsSame(pre, AddAll(qs, t.kept), t'.quotas);
    } else {
      QuietImpliesWithin(pre, t'.quotas);
    }
  }

  /** A node that suits the preemptor still does when pods leave it. */
  ghost predicate DownClosed(fits: set<Pod> -> bool)
  {
    forall a, b :: a <= b && fits(b) ==> fits(a)
  }

  lemma AcceptableIsHereditary(fits: set<Pod> -> bool, pre: Preemptor, rest: set<Pod>, qs: Quotas, candidates: seq<Pod>)
    requires Identified(candidates) && Untracked(qs, candidates) && Sane(qs) && Chargeable(candidates)
    requires DownClosed(fits)
    ensures Hereditary(Acceptable(fits, pre, rest, qs), candidates)
  {
    var ok := Acceptable(fits, pre, rest, qs);
    forall few, many, v | few <= many && Distinct(many + [v]) && (forall x :: x in many + [v] ==> x in candidates)
      ensures Allows(ok, many, v) ==> Allows(ok, few, v)
    {
      FewerTripLess(pre, qs, candidates, few, many, v);
      assert forall x :: x in few ==> x in many;
      assert rest + PodSet(few + [v]) <= rest + PodSet(many + [v]);
    }
  }

  lemma FewerTripLess(pre: Preemptor, qs: Quotas, pool: seq<Pod>, few: seq<Pod>, many: seq<Pod>, v: Pod)
    requires Identified(pool) && Untracked(qs, pool) && Sane(qs) && Chargeable(pool)
    requires few <= many && Distinct(many + [v]) && forall x :: x in many + [v] ==> x in pool
    ensures Trips(pre, AddAll(qs, few + [v])) ==> Trips(pre, AddAll(qs, many + [v]))
  {
    FewerUseLess(qs, pool, few, many, v);
    var a, b := AddAll(qs, few + [v]), AddAll(qs, many + [v]);
    TestsMonotone(a, b, pre.nominatedInQuota);
    TestsMonotone(a, b, pre.nominatedTotal);
  }

  lemma PoolIsIdentified(pool: seq<Pod>, s: seq<Pod>)
    requires Identified(pool) && Distinct(s) && forall x :: x in s ==> x in pool
    ensures Identified(s)
  {
    forall i | 0 <= i < |s| ensures s[i].uid != "" { assert s[i] in pool; }
    forall i, j | 0 <= i < j < |s| ensures s[i].uid != s[j].uid {
      assert s[i] in pool && s[j] in pool;
      var a :| 0 <= a < |pool| && pool[a] == s[i];
      var b :| 0 <= b < |pool| && pool[b] == s[j];
      assert a != b;
    }
  }

  lemma FewerIsDistinct(few: seq<Pod>, many: seq<Pod>, v: Pod)
    requires few <= many && Distinct(many + [v])
    ensures Distinct(few + [v])
  {
    var a, b := few + [v], many + [v];
    forall i, j | 0 <= i < j < |a| ensures a[i] != a[j] {
      assert a[i] == b[i];
      if j < |few| { assert a[j] == b[j]; } else { assert a[j] == b[|many|]; }
    }
  }

  lemma FewerUseLess(qs: Quotas, pool: seq<Pod>, few: seq<Pod>, many: seq<Pod>, v: Pod)
    requires Identified(pool) && Untracked(qs, pool) && Sane(qs) && Chargeable(pool)
    requires few <= many && Distinct(many + [v]) && forall x :: x in many + [v] ==> x in pool
    ensures NoMoreUsed(AddAll(qs, few + [v]), AddAll(qs, many + [v]))
    ensures Sane(AddAll(qs, few + [v]))
  {
    var a, b := few + [v], many + [v];
    assert forall x :: x in a ==> x in b by { assert forall x :: x in few ==> x in many; }
    FewerIsDistinct(few, many, v);
    PoolIsIdentified(pool, a);
    PoolIsIdentified(pool, b);
    SaneAddAll(qs, a);
    SaneAddAll(qs, b);
    assert PodSet(a) <= PodSet(b);
    forall n, d | n in qs
      ensures Amount(AddAll(qs, a)[n].used, d) <= Amount(AddAll(qs, b)[n].used, d)
    {
      AddAllAmounts(qs, a, n, d);
      AddAllAmounts(qs, b, n, d);
      forall p | p in PodSet(b) ensures ChargeTo(n, d)(p) >= 0 { assert NonNegative(Request(p)); }
      SumSubset(PodSet(a), PodSet(b), ChargeTo(n, d));
    }
    forall n | n in qs
      ensures AddAll(qs, a)[n].min == AddAll(qs, b)[n].min && AddAll(qs, a)[n].max == AddAll(qs, b)[n].max
    {
      AddAllPods(qs, a, n, "");
      AddAllPods(qs, b, n, "");
    }
  }

  // ---- A whole successful selection ----

  ghost predicate MostImportantFirst(s: seq<Pod>)
  {
    forall i, j :: 0 <= i < j < |s| ==> !MoreImportant(s[j], s[i])
  }

  ghost predicate LeastImportantFirst(s: seq<Pod>)
  {
    forall i, j :: 0 <= i < j < |s| ==> !MoreImportant(s[i], s[j])
  }

  /** Importance in numbers: higher priority first, then the earlier start. */
  lemma ImportanceInNumbers(s: seq<Pod>)
    ensures MostImportantFirst(s) <==>
            forall i, j :: 0 <= i < j < |s| ==>
              s[i].priority > s[j].priority || (s[i].priority == s[j].priority && s[i].startTime <= s[j].startTime)
    ensures LeastImportantFirst(s) <==>
            forall i, j :: 0 <= i < j < |s| ==>
              s[i].priority < s[j].priority || (s[i].priority == s[j].priority && s[i].startTime >= s[j].startTime)
  {
  }

  /** The two orders that sorting left behind: of the node's pods and of the
      candidates. Sorting does not say how ties fall, so they are not functions of the input. */
  datatype Selection = Selection(order: seq<Pod>, sorted: seq<Pod>)

  /** The inputs of one selection. */
  datatype Input = Input(pods: seq<Pod>, quotas: Quotas, pre: Preemptor, budgets: seq<Budget>)

  ghost predicate Proper(x: Input)
  {
    Identified(x.pods) && Chargeable(x.pods) && Sane(x.quotas) && Covers(x.pre, x.quotas)
  }

  ghost function Taken(x: Input, sel: Selection): seq<Pod> { Candidates(x.pre, x.quotas, sel.order) }

  ghost function Rest(x: Input, sel: Selection): set<Pod> { PodSet(x.pods) - PodSet(Taken(x, sel)) }

  ghost function Stripped(x: Input, sel: Selection): Quotas { RemoveAll(x.quotas, Taken(x, sel)) }

  ghost predicate Arranged(x: Input, sel: Selection)
  {
    && multiset(sel.order) == multiset(x.pods) && LeastImportantFirst(sel.order)
    && multiset(sel.sorted) == multiset(Taken(x, sel)) && MostImportantFirst(sel.sorted)
  }

  ghost function Tried(selects: Selector, x: Input, sel: Selection): seq<Pod>
  {
    Violating(selects, x.budgets, sel.sorted) + NonViolating(selects, x.budgets, sel.sorted)
  }

  /** The state of the reprieve after all candidates were tried. */
  ghost function Verdict(fits: set<Pod> -> bool, selects: Selector, x: Input, sel: Selection): Trial
  {
    Reprieves(fits, x.pre, Rest(x, sel), Stripped(x, sel), Tried(selects, x, sel))
  }

  ghost predicate Succeeds(fits: set<Pod> -> bool, selects: Selector, x: Input, sel: Selection)
  {
    && Arranged(x, sel)
    && fits(Rest(x, sel)) && WithinQuota(x.pre, Stripped(x, sel))
    && Verdict(fits, selects, x, sel).Trial?
  }

  lemma PermutedIdentified(a: seq<Pod>, b: seq<Pod>)
    requires multiset(a) == multiset(b) && Identified(a)
    ensures Identified(b) && PodSet(a) == PodSet(b)
  {
    DistinctIff(a);
    DistinctIff(b);
    assert Distinct(a);
    forall p ensures p in a <==> p in b { assert p in multiset(a) <==> p in multiset(b); }
    PoolIsIdentified(a, b);
  }

  lemma TriedFacts(selects: Selector, x: Input, sel: Selection)
    requires Proper(x) && Arranged(x, sel)
    ensures var tried := Tried(selects, x, sel);
            && Identified(tried) && Identified(Taken(x, sel)) && Identified(sel.order)
            && PodSet(tried) == PodSet(Taken(x, sel)) <= PodSet(x.pods)
            && Untracked(Stripped(x, sel), tried) && Sane(Stripped(x, sel)) && Stripped(x, sel).Keys == x.quotas.Keys
            && Chargeable(tried) && Chargeable(Taken(x, sel))
  {
    var tried, taken := Tried(selects, x, sel), Taken(x, sel);
    PermutedIdentified(x.pods, sel.order);
    CandidatesAreOnNode(x.pre, x.quotas, sel.order);
    PermutedIdentified(taken, sel.sorted);
    SplitIsPartition(selects, x.budgets, sel.sorted);
    PermutedIdentified(sel.sorted, tried);
    assert forall p :: p in taken ==> p in PodSet(sel.order);
    assert forall p :: p in tried ==> p in PodSet(taken);
    assert forall p :: p in taken ==> p in x.pods && p in taken && p.uid != "" by {
      forall p | p in taken ensures p in x.pods { assert p in PodSet(x.pods); }
    }
    RemoveAllFacts(x.quotas, taken);
  }

  lemma TrialSplits(fits: set<Pod> -> bool, selects: Selector, x: Input, sel: Selection)
    requires Proper(x) && Succeeds(fits, selects, x, sel)
    ensures var t := Verdict(fits, selects, x, sel);
            var taken := Taken(x, sel);
            && Identified(t.victims) && Identified(t.kept)
            && PodSet(t.kept) + PodSet(t.victims) == PodSet(taken)
            && PodSet(t.kept) !! PodSet(t.victims)
            && Same(t.quotas, AddAll(Stripped(x, sel), t.kept))
            && Rest(x, sel) + PodSet(t.kept) == PodSet(x.pods) - PodSet(t.victims)
  {
    var t := Verdict(fits, selects, x, sel);
    var tried := Tried(selects, x, sel);
    TriedFacts(selects, x, sel);
    ReprievesRefinesRun(fits, x.pre, Rest(x, sel), Stripped(x, sel), tried);
    RunSplits(Acceptable(fits, x.pre, Rest(x, sel), Stripped(x, sel)), tried);
    DisjointHalves(tried, t.kept, t.victims);
  }

  lemma DisjointHalves(whole: seq<Pod>, a: seq<Pod>, b: seq<Pod>)
    requires Identified(whole) && multiset(a) + multiset(b) == multiset(whole)
    ensures Identified(a) && Identified(b)
    ensures PodSet(a) + PodSet(b) == PodSet(whole) && PodSet(a) !! PodSet(b)
  {
    assert multiset(a + b) == multiset(whole);
    PermutedIdentified(whole, a + b);
    assert forall i :: 0 <= i < |a| ==> (a + b)[i] == a[i];
    assert forall i :: 0 <= i < |b| ==> (a + b)[|a| + i] == b[i];
    forall i, j | 0 <= i < |a| && 0 <= j < |b| ensures a[i] != b[j] {
      assert (a + b)[i].uid != (a + b)[|a| + j].uid;
    }
  }

  /** Whenever the selection succeeds: the victims are pods of the node, none listed
      twice; the node without them suits the preemptor; and with the preemptor added,
      its quota stays within Max and all quotas together within the sum of Min. */
  lemma SelectionIsSafe(fits: set<Pod> -> bool, selects: Selector, x: Input, sel: Selection)
    requires Proper(x) && Succeeds(fits, selects, x, sel)
    ensures var t := Verdict(fits, selects, x, sel);
            && Identified(t.victims) && PodSet(t.victims) <= PodSet(x.pods)
            && fits(PodSet(x.pods) - PodSet(t.victims))
            && WithinQuota(x.pre, t.quotas)
  {
    var t := Verdict(fits, selects, x, sel);
    TriedFacts(selects, x, sel);
    TrialSplits(fits, selects, x, sel);
    ReprievesStaySafe(fits, x.pre, Rest(x, sel), Stripped(x, sel), Tried(selects, x, sel));
  }

  /** When the snapshot knew the node's pods, the quotas end up exactly as if the
      victims, and nothing else, had been deleted from the original snapshot. */
  lemma OnlyVictimsAreUncharged(fits: set<Pod> -> bool, selects: Selector, x: Input, sel: Selection)
    requires Proper(x) && Succeeds(fits, selects, x, sel)
    requires Tracked(x.quotas, x.pods)
    ensures var t := Verdict(fits, selects, x, sel);
            && Same(t.quotas, RemoveAll(x.quotas, t.victims))
            && WithinQuota(x.pre, RemoveAll(x.quotas, t.victims))
  {
    var t := Verdict(fits, selects, x, sel);
    var taken := Taken(x, sel);
    TriedFacts(selects, x, sel);
    TrialSplits(fits, selects, x, sel);
    assert forall p :: p in taken ==> p in PodSet(taken) && p in PodSet(x.pods);
    RestoreKept(x.quotas, taken, t.kept, t.victims);
    SelectionIsSafe(fits, selects, x, sel);
    TripsSame(x.pre, RemoveAll(x.quotas, t.victims), t.quotas);
  }

  /** Deleting all candidates and adding the kept ones again deletes just the victims. */
  lemma RestoreKept(qs: Quotas, taken: seq<Pod>, kept: seq<Pod>, victims: seq<Pod>)
    requires Identified(taken) && Identified(kept) && Identified(victims)
    requires Tracked(qs, taken) && Chargeable(taken) && Sane(qs)
    requires PodSet(kept) + PodSet(victims) == PodSet(taken) && PodSet(kept) !! PodSet(victims)
    ensures Same(AddAll(RemoveAll(qs, taken), kept), RemoveAll(qs, victims))
    ensures Sane(RemoveAll(qs, victims))
  {
    var stripped := RemoveAll(qs, taken);
    var a, b := AddAll(stripped, kept), RemoveAll(qs, victims);
    assert forall p :: p in kept || p in victims ==> p in PodSet(taken) && p in taken by {
      assert forall p :: p in kept ==> p in PodSet(kept);
      assert forall p :: p in victims ==> p in PodSet(victims);
    }
    RemoveAllFacts(qs, taken);
    RemoveAllFacts(qs, victims);
    SaneAddAll(stripped, kept);
    forall n | n in qs
      ensures a[n].pods == b[n].pods && a[n].min == b[n].min && a[n].max == b[n].max
    {
      AddAllPods(stripped, kept, n, "");
      forall u ensures u in a[n].pods <==> u in b[n].pods { SamePods(qs, taken, kept, victims, n, u); }
    }
    forall n, d | n in qs ensures Amount(a[n].used, d) == Amount(b[n].used, d) {
      SameAmounts(qs, taken, kept, victims, n, d);
    }
  }

  lemma SameAmounts(qs: Quotas, taken: seq<Pod>, kept: seq<Pod>, victims: seq<Pod>, n: string, d: Dimension)
    requires Identified(taken) && Identified(kept) && Identified(victims) && n in qs
    requires Tracked(qs, taken) && Tracked(qs, victims) && Untracked(RemoveAll(qs, taken), kept)
    requires PodSet(kept) + PodSet(victims) == PodSet(taken) && PodSet(kept) !! PodSet(victims)
    ensures n in AddAll(RemoveAll(qs, taken), kept) && n in RemoveAll(qs, victims)
    ensures Amount(AddAll(RemoveAll(qs, taken), kept)[n].used, d) == Amount(RemoveAll(qs, victims)[n].used, d)
  {
    RemoveAllAmounts(qs, taken, n, d);
    AddAllAmounts(RemoveAll(qs, taken), kept, n, d);
    RemoveAllAmounts(qs, victims, n, d);
    SumUnion(PodSet(kept), PodSet(victims), ChargeTo(n, d));
  }

  lemma DifferentUids(s: seq<Pod>, p: Pod, v: Pod)
    requires Identified(s) && p in s && v in s && p != v
    ensures p.uid != v.uid
  {
    var i :| 0 <= i < |s| && s[i] == p;
    var j :| 0 <= j < |s| && s[j] == v;
    assert i != j;
  }

  lemma SamePods(qs: Quotas, taken: seq<Pod>, kept: seq<Pod>, victims: seq<Pod>, n: string, u: string)
    requires Identified(taken) && Identified(kept) && Identified(victims) && Tracked(qs, taken) && n in qs
    requires PodSet(kept) + PodSet(victims) == PodSet(taken) && PodSet(kept) !! PodSet(victims)
    ensures RemoveAll(qs, taken).Keys == qs.Keys == AddAll(RemoveAll(qs, taken), kept).Keys
    ensures RemoveAll(qs, victims).Keys == qs.Keys
    ensures u in AddAll(RemoveAll(qs, taken), kept)[n].pods <==> u in RemoveAll(qs, victims)[n].pods
  {
    RemoveAllPods(qs, taken, n, u);
    AddAllPods(RemoveAll(qs, taken), kept, n, u);
    RemoveAllPods(qs, victims, n, u);
    assert forall p :: p in PodSet(taken) <==> p in PodSet(kept) || p in PodSet(victims);
    if Mentions(kept, n, u) {
      var p :| p in kept && p.namespace == n && p.uid == u;
      assert p in PodSet(taken) && p in taken;
      forall v | v in victims ensures v.uid != u {
        assert v in PodSet(victims) && v in PodSet(taken) && v in taken;
        assert p in PodSet(kept);
        DifferentUids(taken, p, v);
      }
    }
    if Mentions(taken, n, u) {
      var p :| p in taken && p.namespace == n && p.uid == u;
      assert p in PodSet(taken);
      assert Mentions(kept, n, u) || Mentions(victims, n, u);
    }
    if Mentions(victims, n, u) {
      var p :| p in victims && p.namespace == n && p.uid == u;
      assert p in PodSet(taken) && p in taken;
    }
  }

  /** If pods leaving never spoils the node, no victim can be spared: with any one
      of them back on the final node, the filters fail or the quota test trips. */
  lemma SelectionIsIrreducible(fits: set<Pod> -> bool, selects: Selector, x: Input, sel: Selection, v: Pod)
    requires Proper(x) && Succeeds(fits, selects, x, sel) && DownClosed(fits)
    requires v in Verdict(fits, selects, x, sel).victims
    ensures var t := Verdict(fits, selects, x, sel);
            !fits(PodSet(x.pods) - PodSet(t.victims) + {v}) || Trips(x.pre, AddPod(t.quotas, v))
  {
    TriedFacts(selects, x, sel);
    TrialSplits(fits, selects, x, sel);
    VictimIsNeeded(fits, x.pre, Rest(x, sel), Stripped(x, sel), Tried(selects, x, sel), v);
  }

  /** The same, told by the original quotas less the victims, when those knew the node's pods. */
  lemma NoVictimCanBeSpared(fits: set<Pod> -> bool, selects: Selector, x: Input, sel: Selection, v: Pod)
    requires Proper(x) && Succeeds(fits, selects, x, sel) && DownClosed(fits) && Tracked(x.quotas, x.pods)
    requires v in Verdict(fits, selects, x, sel).victims
    ensures var victims := Verdict(fits, selects, x, sel).victims;
            !fits(PodSet(x.pods) - PodSet(victims) + {v}) || Trips(x.pre, AddPod(RemoveAll(x.quotas, victims), v))
  {
    var t := Verdict(fits, selects, x, sel);
    var left := RemoveAll(x.quotas, t.victims);
    SelectionIsIrreducible(fits, selects, x, sel, v);
    OnlyVictimsAreUncharged(fits, selects, x, sel);
    SameStep(t.quotas, left, v);
    SelectionIsSafe(fits, selects, x, sel);
    assert forall p :: p in t.victims ==> p in PodSet(t.victims) && p in PodSet(x.pods);
    RemoveAllFacts(x.quotas, t.victims);
    TripsSame(x.pre, AddPod(left, v), AddPod(t.quotas, v));
  }

  lemma VictimIsNeeded(fits: set<Pod> -> bool, pre: Preemptor, rest: set<Pod>, qs: Quotas, tried: seq<Pod>, v: Pod)
    requires Identified(tried) && Untracked(qs, tried) && Sane(qs) && Chargeable(tried) && DownClosed(fits)
    requires Reprieves(fits, pre, rest, qs, tried).Trial?
    requires v in Reprieves(fits, pre, rest, qs, tried).victims
    ensures var t := Reprieves(fits, pre, rest, qs, tried);
            !fits(rest + PodSet(t.kept) + {v}) || Trips(pre, AddPod(t.quotas, v))
  {
    var t := Reprieves(fits, pre, rest, qs, tried);
    ReprievesRefinesRun(fits, pre, rest, qs, tried);
    AcceptableIsHereditary(fits, pre, rest, qs, tried);
    assert Distinct(tried);
    RunIsIrreducible(Acceptable(fits, pre, rest, qs), tried, v);
    assert forall y :: y in t.kept ==> y.uid != "";
    RefusalMeans(fits, pre, rest, qs, t.kept, t.quotas, v);
  }

  lemma RefusalMeans(fits: set<Pod> -> bool, pre: Preemptor, rest: set<Pod>, qs: Quotas, kept: seq<Pod>, quotas: Quotas,
                     v: Pod)
    requires Sane(qs) && Same(quotas, AddAll(qs, kept)) && (forall y :: y in kept ==> y.uid != "")
    requires !Allows(Acceptable(fits, pre, rest, qs), kept, v)
    ensures !fits(rest + PodSet(kept) + {v}) || Trips(pre, AddPod(quotas, v))
  {
    assert (kept + [v])[..|kept|] == kept;
    assert rest + PodSet(kept + [v]) == rest + PodSet(kept) + {v};
    SaneAddAll(qs, kept);
    SameStep(quotas, AddAll(qs, kept), v);
    TripsSame(pre, AddPod(AddAll(qs, kept), v), AddPod(quotas, v));
  }

  // ---- Guaranteed minimums ----

  lemma {:induction false} LastOfNamespace(s: seq<Pod>, n: string) returns (i: nat)
    requires exists p :: p in s && p.namespace == n
    ensures i < |s| && s[i].namespace == n
    ensures forall j :: i < j < |s| ==> s[j].namespace != n
  {
    var k := |s| - 1;
    if s[k].namespace == n {
      i := k;
    } else {
      var p :| p in s && p.namespace == n;
      assert p in s[..k];
      i := LastOfNamespace(s[..k], n);
      assert forall j :: i < j < k ==> s[..k][j] == s[j];
    }
  }

  lemma {:induction false} OthersUntouched(qs: Quotas, s: seq<Pod>, i: nat, n: string)
    requires i <= |s| && n in qs
    requires forall j :: i <= j < |s| ==> s[j].namespace != n
    ensures n in RemoveAll(qs, s) && n in RemoveAll(qs, s[..i])
    ensures RemoveAll(qs, s)[n] == RemoveAll(qs, s[..i])[n]
  {
    RemoveAllKeys(qs, s);
    RemoveAllKeys(qs, s[..i]);
    if i == |s| {
      assert s[..i] == s;
    } else {
      var k := |s| - 1;
      assert s[..k][..i] == s[..i];
      OthersUntouched(qs, s[..k], i, n);
    }
  }

  lemma {:induction false} RemoveAllKeys(qs: Quotas, s: seq<Pod>)
    ensures RemoveAll(qs, s).Keys == qs.Keys
  {
    if s != [] { RemoveAllKeys(qs, s[..|s| - 1]); }
  }

  lemma CandidateGuarantee(x: Input, sel: Selection, selects: Selector, v: Pod)
    requires Proper(x) && Arranged(x, sel) && v in Taken(x, sel)
    ensures if x.pre.pod.namespace !in x.quotas then
              v.namespace !in x.quotas && v.priority < x.pre.pod.priority
            else if MoreThanMinWithPreemptor(x.pre, x.quotas) then
              v.namespace == x.pre.pod.namespace && v.priority < x.pre.pod.priority
            else
              && v.namespace != x.pre.pod.namespace && v.namespace in x.quotas
              && OverMin(x.quotas[v.namespace])
  {
    var taken := Taken(x, sel);
    TriedFacts(selects, x, sel);
    var i :| 0 <= i < |taken| && taken[i] == v;
    CandidateWasEligible(x.pre, x.quotas, sel.order, i);
    RemoveAllKeys(x.quotas, taken[..i]);
    assert forall p :: p in taken[..i] ==> p in taken;
    RemoveAllFacts(x.quotas, taken[..i]);
    assert Sane(RemoveAll(x.quotas, taken[..i]));
    TestsMonotone(RemoveAll(x.quotas, taken[..i]), x.quotas, ZERO);
  }

  /** Who can be a victim: below its minimum, a quota may only take back from quotas
      that are over theirs; otherwise victims have lower priority and share the
      preemptor's namespace, or no quota is involved at all. */
  lemma GuaranteesAreRespected(fits: set<Pod> -> bool, selects: Selector, x: Input, sel: Selection, v: Pod)
    requires Proper(x) && Succeeds(fits, selects, x, sel)
    requires v in Verdict(fits, selects, x, sel).victims
    ensures if x.pre.pod.namespace !in x.quotas then
              v.namespace !in x.quotas && v.priority < x.pre.pod.priority
            else if AboveMinWith(x.quotas[x.pre.pod.namespace], x.pre.nominatedInQuota) then
              v.namespace == x.pre.pod.namespace && v.priority < x.pre.pod.priority
            else
              && v.namespace != x.pre.pod.namespace && v.namespace in x.quotas
              && AboveMin(x.quotas[v.namespace])
  {
    TrialSplits(fits, selects, x, sel);
    assert v in PodSet(Taken(x, sel));
    CandidateGuarantee(x, sel, selects, v);
    ModeInNumbers(x.pre, x.quotas);
    if v.namespace in x.quotas { TestsInNumbers(x.quotas[v.namespace], ZERO); }
  }

  /** The mode of the selection in numbers. */
  lemma ModeInNumbers(pre: Preemptor, qs: Quotas)
    ensures MoreThanMinWithPreemptor(pre, qs) <==>
            pre.pod.namespace in qs && AboveMinWith(qs[pre.pod.namespace], pre.nominatedInQuota)
  {
    if pre.pod.namespace in qs { TestsInNumbers(qs[pre.pod.namespace], pre.nominatedInQuota); }
  }

  /** A borrowing quota is drained at most one pod past its minimum: with a single
      victim of its namespace back, it would still be above the minimum. */
  lemma DrainedAtMostOnePodPastMin(fits: set<Pod> -> bool, selects: Selector, x: Input, sel: Selection, v: Pod)
      returns (p: Pod, d: Dimension)
    requires Proper(x) && Succeeds(fits, selects, x, sel)
    requires v in Verdict(fits, selects, x, sel).victims
    requires x.pre.pod.namespace in x.quotas
    requires !AboveMinWith(x.quotas[x.pre.pod.namespace], x.pre.nominatedInQuota)
    ensures p in Verdict(fits, selects, x, sel).victims && p.namespace == v.namespace && p.namespace in x.quotas
    ensures var q := Verdict(fits, selects, x, sel).quotas;
            && v.namespace in q
            && Amount(q[v.namespace].used, d) + Amount(Request(p), d) > Amount(x.quotas[v.namespace].min, d)
  {
    var t := Verdict(fits, selects, x, sel);
    ModeInNumbers(x.pre, x.quotas);
    TriedFacts(selects, x, sel);
    TrialSplits(fits, selects, x, sel);
    assert v in PodSet(t.victims) && v in PodSet(Taken(x, sel));
    CandidateGuarantee(x, sel, selects, v);
    PermutedIdentified(x.pods, sel.order);
    assert forall y :: y in sel.order ==> y in PodSet(x.pods);
    p, d := StrippedIsOnePodBelow(x.pre, x.quotas, sel.order, v.namespace);
    assert p in PodSet(Taken(x, sel));
    assert forall y :: y in t.kept ==>
      y in PodSet(t.kept) && y in PodSet(Taken(x, sel)) && y in PodSet(Tried(selects, x, sel));
    KeptOnlyAdd(Stripped(x, sel), t.kept, v.namespace, d);
    if p in PodSet(t.kept) {
      KeptAddsBack(Stripped(x, sel), t.kept, p, d);
      assert v in Taken(x, sel) && NonNegative(Request(v));
      p := v;
    }
  }

  lemma StrippedIsOnePodBelow(pre: Preemptor, qs: Quotas, order: seq<Pod>, n: string) returns (p: Pod, d: Dimension)
    requires Identified(order) && Chargeable(order) && Sane(qs)
    requires pre.pod.namespace in qs && !MoreThanMinWithPreemptor(pre, qs) && n in qs
    requires exists v :: v in Candidates(pre, qs, order) && v.namespace == n
    ensures p in Candidates(pre, qs, order) && p.namespace == n
    ensures var stripped := RemoveAll(qs, Candidates(pre, qs, order));
            && n in stripped
            && Amount(stripped[n].used, d) + Amount(Request(p), d) > Amount(qs[n].min, d)
  {
    var taken := Candidates(pre, qs, order);
    CandidatesAreOnNode(pre, qs, order);
    var i := LastOfNamespace(taken, n);
    p := taken[i];
    assert p in taken;
    var before := RemoveAll(qs, taken[..i]);
    assert n in before && OverMin(before[n]) by {
      CandidateWasEligible(pre, qs, order, i);
      RemoveAllKeys(qs, taken[..i]);
    }
    assert before[n].min == qs[n].min by {
      assert forall y :: y in taken[..i] ==> y in taken;
      RemoveAllFacts(qs, taken[..i]);
    }
    d := OverMinWitness(before[n]);
    LastRemoval(qs, taken, i, n, d);
  }

  lemma OverMinWitness(q: Quota) returns (d: Dimension)
    requires NonNegative(q.min) && OverMin(q)
    ensures Amount(q.used, d) > Amount(q.min, d)
  {
    ExceedsMinIff(q.used, ZERO, q.min);
    d :| Amount(q.used, d) + Amount(ZERO, d) > Amount(q.min, d);
  }

  lemma LastRemoval(qs: Quotas, s: seq<Pod>, i: nat, n: string, d: Dimension)
    requires i < |s| && s[i].namespace == n && n in qs && NonNegative(Request(s[i]))
    requires forall j :: i < j < |s| ==> s[j].namespace != n
    ensures n in RemoveAll(qs, s) && n in RemoveAll(qs, s[..i])
    ensures Amount(RemoveAll(qs, s)[n].used, d) >= Amount(RemoveAll(qs, s[..i])[n].used, d) - Amount(Request(s[i]), d)
  {
    assert s[..i + 1][..i] == s[..i];
    RemoveAllKeys(qs, s[..i]);
    OthersUntouched(qs, s, i + 1, n);
  }

  lemma KeptOnlyAdd(qs: Quotas, kept: seq<Pod>, n: string, d: Dimension)
    requires Identified(kept) && Untracked(qs, kept) && Chargeable(kept) && n in qs
    ensures n in AddAll(qs, kept) && Amount(AddAll(qs, kept)[n].used, d) >= Amount(qs[n].used, d)
  {
    AddAllAmounts(qs, kept, n, d);
    forall y | y in PodSet(kept) ensures ChargeTo(n, d)(y) >= 0 { assert NonNegative(Request(y)); }
    SumNonNegative(PodSet(kept), ChargeTo(n, d));
  }

  /** A kept pod is charged again in full. */
  lemma KeptAddsBack(qs: Quotas, kept: seq<Pod>, p: Pod, d: Dimension)
    requires Identified(kept) && Untracked(qs, kept) && Chargeable(kept) && p in kept && p.namespace in qs
    ensures p.namespace in AddAll(qs, kept)
    ensures Amount(AddAll(qs, kept)[p.namespace].used, d) >= Amount(qs[p.namespace].used, d) + Amount(Request(p), d)
  {
    var n := p.namespace;
    AddAllAmounts(qs, kept, n, d);
    SumPick(PodSet(kept), ChargeTo(n, d), p);
    forall y | y in PodSet(kept) - {p} ensures ChargeTo(n, d)(y) >= 0 { assert NonNegative(Request(y)); }
    SumNonNegative(PodSet(kept) - {p}, ChargeTo(n, d));
  }

  // ---- When the selection fails on a double removal ----

  lemma AddingNeverQuiets(pre: Preemptor, qs: Quotas, p: Pod)
    requires Sane(qs) && NonNegative(Request(p)) && Trips(pre, qs)
    ensures Trips(pre, AddPod(qs, p))
  {
    TestsMonotone(qs, AddPod(qs, p), pre.nominatedInQuota);
    TestsMonotone(qs, AddPod(qs, p), pre.nominatedTotal);
  }

  ghost predicate Misfits(fits: set<Pod> -> bool, rest: set<Pod>, s: seq<Pod>)
  {
    exists p :: p in s && !fits(rest + {p})
  }

  /** The double removal happens exactly when the quota test already trips with
      every candidate gone and some candidate alone does not fit. */
  lemma {:induction false} DoubleRemovalIff(fits: set<Pod> -> bool, pre: Preemptor, rest: set<Pod>, qs: Quotas,
                                            candidates: seq<Pod>)
    requires Identified(candidates) && Untracked(qs, candidates) && Sane(qs) && Chargeable(candidates)
    ensures var t := Reprieves(fits, pre, rest, qs, candidates);
            && (t.DoubleRemoval? <==> Trips(pre, qs) && Misfits(fits, rest, candidates))
            && (t.Trial? && Trips(pre, qs) ==> t.kept == [] && t.victims == candidates)
            && (t.Trial? ==> (Trips(pre, t.quotas) <==> Trips(pre, qs)))
  {
    if candidates != [] {
      var n := |candidates| - 1;
      var p := candidates[n];
      PodSetAppend(candidates);
      DoubleRemovalIff(fits, pre, rest, qs, candidates[..n]);
      assert forall y :: y in candidates <==> y in candidates[..n] || y == p;
      var t := Reprieves(fits, pre, rest, qs, candidates[..n]);
      if t.Trial? {
        TrialStep(fits, pre, rest, qs, candidates);
        if Trips(pre, qs) {
          AddingNeverQuiets(pre, t.quotas, p);
          assert PodSet(t.kept + [p]) == {p};
        }
      }
    }
  }

  lemma TrialStep(fits: set<Pod> -> bool, pre: Preemptor, rest: set<Pod>, qs: Quotas, candidates: seq<Pod>)
    requires candidates != [] && Identified(candidates) && Untracked(qs, candidates) && Sane(qs)
    requires Reprieves(fits, pre, rest, qs, candidates[..|candidates| - 1]).Trial?
    ensures var p := candidates[|candidates| - 1];
            var q := Reprieves(fits, pre, rest, qs, candidates[..|candidates| - 1]).quotas;
            && Sane(q)
            && (Trips(pre, RemovePod(AddPod(q, p), p)) <==> Trips(pre, q))
  {
    var n := |candidates| - 1;
    var p := candidates[n];
    PodSetAppend(candidates);
    ReprievesRefinesRun(fits, pre, rest, qs, candidates[..n]);
    var t := Reprieves(fits, pre, rest, qs, candidates[..n]);
    SaneAddAll(qs, t.kept);
    NotYetCharged(qs, candidates, t.kept, t.quotas);
    AddThenRemove(t.quotas, p);
    TripsSame(pre, t.quotas, RemovePod(AddPod(t.quotas, p), p));
  }

  /** There are candidates, and with all of them gone the preemptor fits the node and its quota. */
  ghost predicate Promising(fits: set<Pod> -> bool, x: Input, sel: Selection)
  {
    Taken(x, sel) != [] && fits(Rest(x, sel)) && WithinQuota(x.pre, Stripped(x, sel))
  }

  ghost predicate Blocked(fits: set<Pod> -> bool, x: Input, sel: Selection)
  {
    Trips(x.pre, Stripped(x, sel)) && Misfits(fits, Rest(x, sel), Taken(x, sel))
  }

  /** The whole selection ends in a double removal exactly when the quota test trips with every
      candidate gone and some candidate alone does not fit beside the pods that stay. */
  lemma SelectionFailsIff(fits: set<Pod> -> bool, selects: Selector, x: Input, sel: Selection)
    requires Proper(x) && Arranged(x, sel)
    ensures Verdict(fits, selects, x, sel).DoubleRemoval? <==> Blocked(fits, x, sel)
  {
    var tried := Tried(selects, x, sel);
    TriedFacts(selects, x, sel);
    DoubleRemovalIff(fits, x.pre, Rest(x, sel), Stripped(x, sel), tried);
    assert forall p :: p in tried <==> p in PodSet(tried);
    assert forall p :: p in Taken(x, sel) <==> p in PodSet(Taken(x, sel));
  }

  lemma SingleQuota(n: string, q: Quota, d: Dimension)
    ensures TotalUsed(map[n := q], d) == Amount(q.used, d)
    ensures TotalMin(map[n := q], d) == Amount(q.min, d)
  {
    var qs := map[n := q];
    SumPick(qs.Keys, UsedIn(qs, d), n);
    SumPick(qs.Keys, MinIn(qs, d), n);
    assert qs.Keys - {n} == {};
  }

  function Cores(milli: int): Resource { Resource(milli, 0, 0, 0, map[]) }

  lemma SingleTests(n: string, q: Quota, request: Resource)
    ensures AggregateOverMinWith(map[n := q], request) <==>
            exists d :: Amount(q.used, d) + Amount(request, d) > Amount(q.min, d)
  {
    forall d { SingleQuota(n, q, d); }
  }

  /** The node of the example: one pod, which its quota of 4 CPUs knows. */
  ghost function OnePodInput(p: Pod, pre: Preemptor): Input
  {
    Input([p], map[p.namespace := Quota(Cores(4), Cores(4), Request(p), {p.uid})], pre, [])
  }

  lemma OnePodIsTaken(p: Pod, pre: Preemptor)
    requires p.uid != "" && p.namespace == pre.pod.namespace && p.priority < pre.pod.priority && Request(p) == Cores(1)
    requires pre.nominatedInQuota == Cores(5)
    ensures var x, sel := OnePodInput(p, pre), Selection([p], [p]);
            && Taken(x, sel) == [p] && Rest(x, sel) == {}
            && Same(Stripped(x, sel), map[p.namespace := Quota(Cores(4), Cores(4), ZERO, {})])
  {
    var x, sel := OnePodInput(p, pre), Selection([p], [p]);
    assert [p][..0] == [] && Candidates(pre, x.quotas, []) == [] && RemoveAll(x.quotas, []) == x.quotas;
    assert MoreThanMinWithPreemptor(pre, x.quotas);
    assert Taken(x, sel) == [] + [p] == [p];
    assert Stripped(x, sel) == RemovePod(x.quotas, p);
    assert x.quotas[p.namespace].pods - {p.uid} == {};
  }

  lemma OnePodIsProper(p: Pod, pre: Preemptor)
    requires p.uid != "" && Request(p) == Cores(1)
    requires pre.podReq == Cores(1) && pre.nominatedInQuota == Cores(5) && pre.nominatedTotal == Cores(5)
    ensures Proper(OnePodInput(p, pre)) && Tracked(OnePodInput(p, pre).quotas, [p])
  {
    assert forall y :: y in [p] ==> y == p;
  }

  /** Such inputs exist: the preemptor alone stays within its quota of 4, with the nominated
      pods it does not, and the one pod of lower priority never fits beside it. */
  lemma DoubleRemovalHappens(p: Pod, pre: Preemptor, fits: set<Pod> -> bool, selects: Selector)
    requires p.uid != "" && p.namespace == pre.pod.namespace && p.priority < pre.pod.priority && Request(p) == Cores(1)
    requires pre.podReq == Cores(1) && pre.nominatedInQuota == Cores(5) && pre.nominatedTotal == Cores(5)
    requires fits({}) && !fits({p})
    ensures var x, sel := OnePodInput(p, pre), Selection([p], [p]);
            && Proper(x) && Arranged(x, sel) && Tracked(x.quotas, x.pods)
            && Promising(fits, x, sel) && Verdict(fits, selects, x, sel).DoubleRemoval?
  {
    var x, sel := OnePodInput(p, pre), Selection([p], [p]);
    OnePodIsTaken(p, pre);
    OnePodIsProper(p, pre);
    EmptyQuotaTests(p.namespace, pre);
    TripsSame(pre, map[p.namespace := Quota(Cores(4), Cores(4), ZERO, {})], Stripped(x, sel));
    assert Misfits(fits, {}, [p]) by { assert p in [p] && {} + {p} == {p}; }
    SelectionFailsIff(fits, selects, x, sel);
  }

  lemma EmptyQuotaTests(n: string, pre: Preemptor)
    requires pre.pod.namespace == n
    requires pre.podReq == Cores(1) && pre.nominatedInQuota == Cores(5) && pre.nominatedTotal == Cores(5)
    ensures var qs := map[n := Quota(Cores(4), Cores(4), ZERO, {})]; Sane(qs) && WithinQuota(pre, qs) && Trips(pre, qs)
  {
    SingleTests(n, Quota(Cores(4), Cores(4), ZERO, {}), pre.podReq);
  }
}
