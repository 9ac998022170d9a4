/** The quota-aware selection told by the numbers of the quotas: which pods become candidates in
    each of its modes, what its quota tests compare, and what a success leaves room for. */
module SelectionInNumbers {
  import opened Resources
  import opened Pods
  import opened ElasticQuota
  import opened VictimSelection
  import opened DisruptionBudgets

  // ---- Candidates ----

  lemma CandidatesStep(pre: Preemptor, qs: Quotas, order: seq<Pod>, k: nat)
    requires k < |order|
    ensures var taken := Candidates(pre, qs, order[..k]);
            Candidates(pre, qs, order[..k + 1]) ==
            if Eligible(pre, MoreThanMinWithPreemptor(pre, qs), RemoveAll(qs, taken), order[k]) then taken + [order[k]]
            else taken
  {
    assert order[..k + 1][..k] == order[..k];
  }

  /** More begins with base and goes on with elements of source. */
  ghost predicate Extends(base: seq<Pod>, more: seq<Pod>, source: seq<Pod>)
  {
    base <= more && forall i :: |base| <= i < |more| ==> more[i] in source
  }

  lemma ExtendsBack(base: seq<Pod>, mid: seq<Pod>, more: seq<Pod>, order: seq<Pod>, k: nat)
    requires k < |order| && Extends(mid, more, order[k + 1..]) && (mid == base || mid == base + [order[k]])
    ensures Extends(base, more, order[k..])
  {
    assert order[k..] == [order[k]] + order[k + 1..];
  }

  lemma {:induction false} CandidatesGrow(pre: Preemptor, qs: Quotas, order: seq<Pod>, k: nat)
    requires k <= |order|
    ensures Extends(Candidates(pre, qs, order[..k]), Candidates(pre, qs, order), order[k..])
    decreases |order| - k
  {
    if k == |order| {
      assert order[..k] == order;
    } else {
      CandidatesStep(pre, qs, order, k);
      CandidatesGrow(pre, qs, order, k + 1);
      ExtendsBack(Candidates(pre, qs, order[..k]), Candidates(pre, qs, order[..k + 1]), Candidates(pre, qs, order),
                  order, k);
    }
  }

  lemma OnlyOnce(order: seq<Pod>, k: nat)
    requires k < |order| && Identified(order)
    ensures order[k] !in order[..k] && order[k] !in order[k + 1..]
  {
    assert forall j :: 0 <= j < |order| && order[j] == order[k] ==> j == k;
  }

  /** Pod k is a candidate exactly when it was eligible in its turn. */
  lemma CandidateIff(pre: Preemptor, qs: Quotas, order: seq<Pod>, k: nat)
    requires k < |order| && Identified(order)
    ensures order[k] in Candidates(pre, qs, order) <==>
            Eligible(pre, MoreThanMinWithPreemptor(pre, qs), RemoveAll(qs, Candidates(pre, qs, order[..k])), order[k])
  {
    var taken, upto := Candidates(pre, qs, order[..k]), Candidates(pre, qs, order[..k + 1]);
    CandidatesStep(pre, qs, order, k);
    CandidatesGrow(pre, qs, order, k + 1);
    PrefixIdentified(order, k);
    CandidatesAreOnNode(pre, qs, order[..k]);
    OnlyOnce(order, k);
    assert order[k] !in taken;
    assert order[k] in upto ==> upto[|taken|] == order[k] && Candidates(pre, qs, order)[|taken|] == order[k];
  }

  lemma PrefixIdentified(order: seq<Pod>, k: nat)
    requires k <= |order| && Identified(order)
    ensures Identified(order[..k])
  {
    assert forall i :: 0 <= i < k ==> order[..k][i] == order[i];
  }

  /** Which pods of the node are candidates. Without a quota: those without one and of lower
      priority. With a quota that the preemptor takes above its minimum: those of the same
      namespace and of lower priority. Otherwise: those of other quotas, as long as what the
      earlier candidates leave in use is above the minimum of their own. */
  lemma CandidatesByMode(pre: Preemptor, qs: Quotas, order: seq<Pod>, k: nat)
    requires k < |order| && Identified(order) && Chargeable(order) && Sane(qs)
    ensures var p, own := order[k], pre.pod.namespace;
            var taken := Candidates(pre, qs, order[..k]);
            p in Candidates(pre, qs, order) <==>
              if own !in qs then p.namespace !in qs && p.priority < pre.pod.priority
              else if AboveMinWith(qs[own], pre.nominatedInQuota) then
                p.namespace == own && p.priority < pre.pod.priority
              else
                && p.namespace != own && p.namespace in qs && p.namespace in RemoveAll(qs, taken)
                && AboveMin(RemoveAll(qs, taken)[p.namespace])
  {
    var p, taken := order[k], Candidates(pre, qs, order[..k]);
    CandidateIff(pre, qs, order, k);
    ModeInNumbers(pre, qs);
    RemoveAllKeys(qs, taken);
    PrefixIdentified(order, k);
    CandidatesAreOnNode(pre, qs, order[..k]);
    assert forall y :: y in taken ==> y in order[..k] && y in order;
    RemoveAllFacts(qs, taken);
    if p.namespace in qs { TestsInNumbers(RemoveAll(qs, taken)[p.namespace], ZERO); }
  }

  // ---- Quota tests ----

  /** Both quota tests in numbers: the quota's own maximum, and all minimums together. */
  lemma QuotaTestsInNumbers(pre: Preemptor, qs: Quotas)
    ensures Trips(pre, qs) <==>
              && pre.pod.namespace in qs
              && (AboveMaxWith(qs[pre.pod.namespace], pre.nominatedInQuota) ||
                  exists d :: TotalUsed(qs, d) + Amount(pre.nominatedTotal, d) > TotalMin(qs, d))
    ensures WithinQuota(pre, qs) <==>
              (pre.pod.namespace in qs ==>
                 && !AboveMaxWith(qs[pre.pod.namespace], pre.podReq)
                 && forall d :: TotalUsed(qs, d) + Amount(pre.podReq, d) <= TotalMin(qs, d))
  {
    if pre.pod.namespace in qs {
      TestsInNumbers(qs[pre.pod.namespace], pre.nominatedInQuota);
      TestsInNumbers(qs[pre.pod.namespace], pre.podReq);
    }
  }

  /** What a success leaves room for, in the quotas with the victims deleted: in every dimension
      that the preemptor lists its quota stays within Max, and in every dimension all usage
      together stays within the sum of Min. */
  lemma SuccessLeavesRoom(fits: set<Pod> -> bool, selects: Selector, x: Input, sel: Selection)
    requires Proper(x) && Succeeds(fits, selects, x, sel) && Tracked(x.quotas, x.pods)
    requires x.pre.pod.namespace in x.quotas
    ensures var left := RemoveAll(x.quotas, Verdict(fits, selects, x, sel).victims);
            && x.pre.pod.namespace in left && !AboveMaxWith(left[x.pre.pod.namespace], x.pre.podReq)
            && forall d :: TotalUsed(left, d) + Amount(x.pre.podReq, d) <= TotalMin(left, d)
  {
    var left := RemoveAll(x.quotas, Verdict(fits, selects, x, sel).victims);
    OnlyVictimsAreUncharged(fits, selects, x, sel);
    RemoveAllKeys(x.quotas, Verdict(fits, selects, x, sel).victims);
    QuotaTestsInNumbers(x.pre, left);
  }
}
