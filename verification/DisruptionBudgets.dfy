/** Splitting preemption candidates by whether evicting them would break a pod
    disruption budget (filterPodsWithPDBViolation, the same in both preemption plugins). */
module DisruptionBudgets {
  import opened Pods

  datatype Budget = Budget(namespace: string, disruptionsAllowed: int, disruptedPods: set<string>)

  /** Whether the non-empty, well-formed selector of a budget matches these labels. */
  type Selector = (Budget, map<string, string>) -> bool

  /** The pod uses up one disruption of the budget. */
  predicate Charged(selects: Selector, b: Budget, p: Pod)
  {
    && p.labels != map[]
    && b.namespace == p.namespace
    && selects(b, p.labels)
    && p.name !in b.disruptedPods
  }

  function Charges(selects: Selector, b: Budget, pods: seq<Pod>): nat
  {
    if pods == [] then 0
    else Charges(selects, b, pods[..|pods| - 1]) + if Charged(selects, b, pods[|pods| - 1]) then 1 else 0
  }

  /** The last of `pods` overdraws a budget: it is charged to one whose
      allowance is smaller than the number of pods charged so far. */
  predicate Overdraws(selects: Selector, budgets: seq<Budget>, pods: seq<Pod>)
    requires pods != []
  {
    exists i :: 0 <= i < |budgets| &&
      Charged(selects, budgets[i], pods[|pods| - 1]) &&
      Charges(selects, budgets[i], pods) > budgets[i].disruptionsAllowed
  }

  function Violating(selects: Selector, budgets: seq<Budget>, pods: seq<Pod>): seq<Pod>
  {
    if pods == [] then []
    else
      var n := |pods| - 1;
      var earlier := Violating(selects, budgets, pods[..n]);
      if Overdraws(selects, budgets, pods) then earlier + [pods[n]] else earlier
  }

  function NonViolating(selects: Selector, budgets: seq<Budget>, pods: seq<Pod>): seq<Pod>
  {
    if pods == [] then []
    else
      var n := |pods| - 1;
      var earlier := NonViolating(selects, budgets, pods[..n]);
      if Overdraws(selects, budgets, pods) then earlier else earlier + [pods[n]]
  }

  method FilterPodsWithPDBViolation(selects: Selector, budgets: seq<Budget>, pods: seq<Pod>)
      returns (violating: seq<Pod>, nonViolating: seq<Pod>)
    ensures violating == Violating(selects, budgets, pods)
    ensures nonViolating == NonViolating(selects, budgets, pods)
  {
    var allowed := new int[|budgets|](i requires 0 <= i < |budgets| => budgets[i].disruptionsAllowed);
    violating, nonViolating := [], [];
    for k := 0 to |pods|
      invariant violating == Violating(selects, budgets, pods[..k])
      invariant nonViolating == NonViolating(selects, budgets, pods[..k])
      invariant forall i :: 0 <= i < |budgets| ==>
                  allowed[i] == budgets[i].disruptionsAllowed - Charges(selects, budgets[i], pods[..k])
    {
      var p := pods[k];
      var violated := false;
      ghost var upto := pods[..k + 1];
      assert upto[..k] == pods[..k] && upto[k] == p;
      if p.labels != map[] {
        for i := 0 to |budgets|
          invariant forall j :: i <= j < |budgets| ==>
                      allowed[j] == budgets[j].disruptionsAllowed - Charges(selects, budgets[j], pods[..k])
          invariant forall j :: 0 <= j < i ==>
                      allowed[j] == budgets[j].disruptionsAllowed - Charges(selects, budgets[j], upto)
          invariant violated <==> exists j :: 0 <= j < i && Charged(selects, budgets[j], p) &&
                                              Charges(selects, budgets[j], upto) > budgets[j].disruptionsAllowed
        {
          if budgets[i].namespace == p.namespace && selects(budgets[i], p.labels) &&
            p.name !in budgets[i].disruptedPods {
            allowed[i] := allowed[i] - 1;
            if allowed[i] < 0 {
              violated := true;
            }
          }
        }
      }
      if violated {
        violating := violating + [p];
      } else {
        nonViolating := nonViolating + [p];
      }
    }
    assert pods[..|pods|] == pods;
  }

  /** The two groups together are the input. */
  lemma {:induction false} SplitIsPartition(selects: Selector, budgets: seq<Budget>, pods: seq<Pod>)
    ensures multiset(Violating(selects, budgets, pods)) + multiset(NonViolating(selects, budgets, pods)) ==
            multiset(pods)
  {
    if pods != [] {
      var n := |pods| - 1;
      SplitIsPartition(selects, budgets, pods[..n]);
      assert pods == pods[..n] + [pods[n]];
    }
  }

  /** `sub` is what is left of `whole` after dropping some elements. */
  ghost predicate Subsequence<T>(sub: seq<T>, whole: seq<T>)
  {
    if whole == [] then sub == []
    else
      var n := |whole| - 1;
      || Subsequence(sub, whole[..n])
      || (sub != [] && sub[|sub| - 1] == whole[n] && Subsequence(sub[..|sub| - 1], whole[..n]))
  }

  /** Both groups keep the input order. */
  lemma {:induction false} SplitIsStable(selects: Selector, budgets: seq<Budget>, pods: seq<Pod>)
    ensures Subsequence(Violating(selects, budgets, pods), pods)
    ensures Subsequence(NonViolating(selects, budgets, pods), pods)
  {
    if pods != [] {
      var n := |pods| - 1;
      SplitIsStable(selects, budgets, pods[..n]);
      var v, w := Violating(selects, budgets, pods[..n]), NonViolating(selects, budgets, pods[..n]);
      assert (v + [pods[n]])[..|v|] == v && (w + [pods[n]])[..|w|] == w;
    }
  }

  lemma {:induction false} ChargesAppend(selects: Selector, b: Budget, pods: seq<Pod>, p: Pod)
    ensures Charges(selects, b, pods + [p]) == Charges(selects, b, pods) + if Charged(selects, b, p) then 1 else 0
  {
    assert (pods + [p])[..|pods|] == pods;
  }

  /** No budget is overspent on pods classed as non-violating, however many budgets a pod matches. */
  lemma {:induction false} BudgetsAreRespected(selects: Selector, budgets: seq<Budget>, pods: seq<Pod>, i: nat)
    requires i < |budgets|
    ensures var spent := Charges(selects, budgets[i], NonViolating(selects, budgets, pods));
            && spent <= Charges(selects, budgets[i], pods)
            && (spent <= budgets[i].disruptionsAllowed || spent == 0)
  {
    if pods != [] {
      var n := |pods| - 1;
      BudgetsAreRespected(selects, budgets, pods[..n], i);
      ChargesAppend(selects, budgets[i], NonViolating(selects, budgets, pods[..n]), pods[n]);
      if !Overdraws(selects, budgets, pods) && Charged(selects, budgets[i], pods[n]) {
        assert Charges(selects, budgets[i], pods) <= budgets[i].disruptionsAllowed;
      }
    }
  }

  /** The pods, by position, that match the budget and are not among its disrupted ones. */
  ghost function Matching(selects: Selector, b: Budget, pods: seq<Pod>): set<nat>
  {
    set i: nat | i < |pods| && pods[i].labels != map[] && b.namespace == pods[i].namespace &&
                 selects(b, pods[i].labels) && pods[i].name !in b.disruptedPods
  }

  lemma {:induction false} ChargesAreMatches(selects: Selector, b: Budget, pods: seq<Pod>)
    ensures Charges(selects, b, pods) == |Matching(selects, b, pods)|
  {
    if pods == [] {
      assert Matching(selects, b, pods) == {};
    } else {
      var n: nat := |pods| - 1;
      var few := Matching(selects, b, pods[..n]);
      ChargesAreMatches(selects, b, pods[..n]);
      if Charged(selects, b, pods[n]) {
        assert Matching(selects, b, pods) == few + {n};
      } else {
        assert Matching(selects, b, pods) == few;
      }
    }
  }

  /** A violating pod overdraws a budget that it matches and whose disrupted pods do not include
      it; a pod that every matching budget already lists as disrupted is never violating. */
  lemma {:induction false} ViolatingForAReason(selects: Selector, budgets: seq<Budget>, pods: seq<Pod>, v: Pod)
      returns (i: nat, k: nat)
    requires v in Violating(selects, budgets, pods)
    ensures k < |pods| && pods[k] == v && i < |budgets|
    ensures v.labels != map[] && budgets[i].namespace == v.namespace && selects(budgets[i], v.labels)
    ensures v.name !in budgets[i].disruptedPods
    ensures |Matching(selects, budgets[i], pods[..k + 1])| > budgets[i].disruptionsAllowed
  {
    var n := |pods| - 1;
    if v in Violating(selects, budgets, pods[..n]) {
      i, k := ViolatingForAReason(selects, budgets, pods[..n], v);
      assert pods[..n][..k + 1] == pods[..k + 1];
    } else {
      k := n;
      assert pods[..k + 1] == pods;
      i :| 0 <= i < |budgets| && Charged(selects, budgets[i], pods[n]) &&
           Charges(selects, budgets[i], pods) > budgets[i].disruptionsAllowed;
      ChargesAreMatches(selects, budgets[i], pods);
    }
  }

  /** Violating pods are violating for a reason: while a budget's whole demand
      fits its allowance it makes no pod violating. */
  lemma {:induction false} AmpleBudgetsViolateNothing(selects: Selector, budgets: seq<Budget>, pods: seq<Pod>)
    requires forall i :: 0 <= i < |budgets| ==> Charges(selects, budgets[i], pods) <= budgets[i].disruptionsAllowed
    ensures Violating(selects, budgets, pods) == [] && NonViolating(selects, budgets, pods) == pods
  {
    if pods != [] {
      var n := |pods| - 1;
      AmpleBudgetsViolateNothing(selects, budgets, pods[..n]);
    }
  }
}
