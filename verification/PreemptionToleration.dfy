/** The preemption toleration plugin: victim selection without quotas, sparing
    pods whose priority class tolerates the preemption. */
module PreemptionToleration {
  import opened Options
  import opened Pods
  import opened Reprieve
  import opened DisruptionBudgets
  import opened VictimSelection
  import opened CapacityPreemption

  datatype Policy = Policy(minimumPreemptablePriority: int, tolerationSeconds: int)

  /** Priority classes by name; a class whose annotations do not parse has no policy. */
  type Classes = map<string, Option<Policy>>

  datatype Request = Request(pod: Pod, preemptNever: bool, classes: Classes, now: int)

  /** ExemptedFromPreemption; None is the error of an unknown priority class. */
  function Exempted(r: Request, victim: Pod): Option<bool>
  {
    if victim.priorityClassName == "" then Some(false)
    else if victim.priorityClassName !in r.classes then None
    else if r.preemptNever then Some(true)
    else
      match r.classes[victim.priorityClassName]
      case None => Some(false)
      case Some(policy) =>
        if r.pod.priority >= policy.minimumPreemptablePriority then Some(false)
        else if policy.tolerationSeconds < 0 then Some(true)
        else
          match victim.scheduledAt
          case None => Some(true)
          case Some(at) => Some(at + policy.tolerationSeconds > r.now)
  }

  /** A toleration with a time limit protects a scheduled pod up to, and not at, its deadline. */
  lemma TolerationExpires(r: Request, victim: Pod, later: int)
    requires victim.priorityClassName in r.classes && victim.priorityClassName != "" && !r.preemptNever
    requires Exempted(r, victim) == Some(false) && r.now <= later
    ensures Exempted(r.(now := later), victim) == Some(false)
  {
  }

  /** The policy in numbers: a preemptor that may preempt is held off by a policy exactly when its
      priority is below the minimum preemptable one and the victim tolerates without limit, is
      not scheduled yet, or was scheduled less than the toleration ago. */
  lemma HeldOffIff(r: Request, victim: Pod, policy: Policy)
    requires !r.preemptNever && victim.priorityClassName != ""
    requires victim.priorityClassName in r.classes && r.classes[victim.priorityClassName] == Some(policy)
    ensures Exempted(r, victim) == Some(true) <==>
              && r.pod.priority < policy.minimumPreemptablePriority
              && (policy.tolerationSeconds < 0 || victim.scheduledAt.None? ||
                  r.now - victim.scheduledAt.value < policy.tolerationSeconds)
    ensures Exempted(r, victim).Some?
  {
  }

  /** Without a class or a policy nothing holds a preemptor off; one that never preempts always
      is; a class that does not exist is an error. */
  lemma WithoutPolicy(r: Request, victim: Pod)
    ensures victim.priorityClassName == "" ==> Exempted(r, victim) == Some(false)
    ensures victim.priorityClassName != "" && victim.priorityClassName !in r.classes ==> Exempted(r, victim) == None
    ensures victim.priorityClassName != "" && victim.priorityClassName in r.classes && r.preemptNever ==>
              Exempted(r, victim) == Some(true)
    ensures victim.priorityClassName != "" && victim.priorityClassName in r.classes && !r.preemptNever &&
              r.classes[victim.priorityClassName] == None ==>
              Exempted(r, victim) == Some(false)
  {
  }

  predicate Unknown(r: Request, p: Pod) { p.priority < r.pod.priority && Exempted(r, p).None? }

  predicate SomeUnknown(r: Request, pods: seq<Pod>) { exists p :: p in pods && Unknown(r, p) }

  predicate Preemptable(r: Request, p: Pod) { p.priority < r.pod.priority && Exempted(r, p) == Some(false) }

  ghost function Exposed(r: Request, order: seq<Pod>): seq<Pod>
  {
    if order == [] then []
    else
      var n := |order| - 1;
      if Preemptable(r, order[n]) then Exposed(r, order[..n]) + [order[n]] else Exposed(r, order[..n])
  }

  lemma {:induction false} ExposedFacts(r: Request, order: seq<Pod>)
    requires Identified(order)
    ensures Identified(Exposed(r, order))
    ensures forall p :: p in Exposed(r, order) <==> p in order && Preemptable(r, p)
  {
    if order != [] {
      var n := |order| - 1;
      PodSetAppend(order);
      ExposedFacts(r, order[..n]);
      assert forall p :: p in order <==> p in order[..n] || p == order[n];
      AppendIdentified(order, Exposed(r, order[..n]));
    }
  }

  ghost function Fitting(fits: set<Pod> -> bool, rest: set<Pod>): seq<Pod> -> bool
  {
    kept => fits(rest + PodSet(kept))
  }

  lemma FittingIsHereditary(fits: set<Pod> -> bool, rest: set<Pod>, pool: seq<Pod>)
    requires DownClosed(fits)
    ensures Hereditary(Fitting(fits, rest), pool)
  {
    var ok := Fitting(fits, rest);
    forall few, many, v | few <= many && Distinct(many + [v]) && (forall x :: x in many + [v] ==> x in pool)
      ensures Allows(ok, many, v) ==> Allows(ok, few, v)
    {
      assert forall x :: x in few ==> x in many;
      assert rest + PodSet(few + [v]) <= rest + PodSet(many + [v]);
    }
  }

  /** The node, the victims and the pods put back, as the greedy reprieve leaves them. */
  ghost predicate Stands(fits: set<Pod> -> bool, rest: set<Pod>, tried: seq<Pod>, pods: seq<Pod>, victims: seq<Pod>)
  {
    var o := Run(Fitting(fits, rest), tried);
    Identified(pods) && PodSet(pods) == rest + PodSet(o.kept) && victims == o.victims
  }

  ghost predicate Apart(rest: set<Pod>, candidates: seq<Pod>)
  {
    Identified(candidates) && forall i, y :: 0 <= i < |candidates| && y in rest ==> y.uid != candidates[i].uid
  }

  /** The first k candidates have been tried. */
  ghost predicate Underway(fits: set<Pod> -> bool, rest: set<Pod>, candidates: seq<Pod>, k: nat, pods: seq<Pod>,
                           victims: seq<Pod>)
  {
    k <= |candidates| && Apart(rest, candidates) && Stands(fits, rest, candidates[..k], pods, victims)
  }

  lemma NotOnNode(fits: set<Pod> -> bool, rest: set<Pod>, candidates: seq<Pod>, k: nat, pods: seq<Pod>,
                  victims: seq<Pod>)
    requires k < |candidates| && Apart(rest, candidates) && Stands(fits, rest, candidates[..k], pods, victims)
    ensures forall y :: y in pods ==> y.uid != candidates[k].uid
  {
    var o := Run(Fitting(fits, rest), candidates[..k]);
    RunSplits(Fitting(fits, rest), candidates[..k]);
    forall y | y in pods ensures y.uid != candidates[k].uid {
      assert y in PodSet(pods);
      if y in o.kept {
        assert y in multiset(o.kept) && y in multiset(candidates[..k]);
        var j :| 0 <= j < k && candidates[..k][j] == y;
        assert candidates[j] == y;
      }
    }
  }

  /** reprievePod */
  method ReprievePod(fits: set<Pod> -> bool, node: NodeInfo, p: Pod) returns (fitting: bool)
    requires Identified(node.pods) && p.uid != "" && forall y :: y in node.pods ==> y.uid != p.uid
    modifies node
    ensures fitting == fits(PodSet(old(node.pods)) + {p})
    ensures node.pods == if fitting then old(node.pods) + [p] else old(node.pods)
  {
    ghost var alone := node.pods;
    AddedToSet(node.pods, p);
    RemoveAdded(alone, p);
    node.AddPodInfo(p);
    fitting := fits(set y | y in node.pods);
    if !fitting {
      var removed := node.RemovePod(p);
    }
  }

  lemma StandsNext(fits: set<Pod> -> bool, rest: set<Pod>, candidates: seq<Pod>, k: nat, pods: seq<Pod>,
                   victims: seq<Pod>)
    requires k < |candidates| && Apart(rest, candidates) && Stands(fits, rest, candidates[..k], pods, victims)
    ensures var p := candidates[k];
            if fits(PodSet(pods) + {p}) then Stands(fits, rest, candidates[..k + 1], pods + [p], victims)
            else Stands(fits, rest, candidates[..k + 1], pods, victims + [p])
  {
    var p := candidates[k];
    assert candidates[..k + 1][..k] == candidates[..k];
    NotOnNode(fits, rest, candidates, k, pods, victims);
    AddedToSet(pods, p);
    var kept := Run(Fitting(fits, rest), candidates[..k]).kept;
    assert PodSet(kept + [p]) == PodSet(kept) + {p};
    assert PodSet(pods) + {p} == rest + PodSet(kept + [p]);
  }

  /** One turn of a reprieve loop: a pod that does not fit joins the victims and is counted. */
  method ReprieveNext(fits: set<Pod> -> bool, node: NodeInfo, candidates: seq<Pod>, k: nat, victims: seq<Pod>,
                      misfits: nat, ghost rest: set<Pod>)
      returns (after: seq<Pod>, count: nat)
    requires k < |candidates| && Underway(fits, rest, candidates, k, node.pods, victims)
    modifies node
    ensures Underway(fits, rest, candidates, k + 1, node.pods, after)
    ensures count - misfits == |after| - |victims|
  {
    NotOnNode(fits, rest, candidates, k, node.pods, victims);
    StandsNext(fits, rest, candidates, k, node.pods, victims);
    after, count := victims, misfits;
    var fitting := ReprievePod(fits, node, candidates[k]);
    if !fitting {
      after, count := after + [candidates[k]], count + 1;
    }
  }

  /** One reprieve loop over candidates[from..to], counting those that did not fit. */
  method ReprieveEach(fits: set<Pod> -> bool, node: NodeInfo, candidates: seq<Pod>, from: nat, to: nat,
                      victims0: seq<Pod>, ghost rest: set<Pod>)
      returns (victims: seq<Pod>, misfits: nat)
    requires from <= to <= |candidates| && Underway(fits, rest, candidates, from, node.pods, victims0)
    modifies node
    ensures Underway(fits, rest, candidates, to, node.pods, victims)
    ensures misfits == |victims| - |victims0|
  {
    victims, misfits := victims0, 0;
    for k := from to to
      invariant Underway(fits, rest, candidates, k, node.pods, victims)
      invariant misfits == |victims| - |victims0|
    {
      victims, misfits := ReprieveNext(fits, node, candidates, k, victims, misfits, rest);
    }
  }

  lemma RemoveAdded(s: seq<Pod>, p: Pod)
    requires forall y :: y in s ==> y.uid != p.uid
    ensures forall i :: 0 <= i < |s + [p]| && (s + [p])[i].uid == p.uid ==>
              i == |s| && (s + [p])[..i] + (s + [p])[i + 1..] == s
    ensures (s + [p])[|s|].uid == p.uid
  {
  }

  /** What one call works on. */
  ghost function Left(r: Request, pods: seq<Pod>): set<Pod> { PodSet(pods) - PodSet(Exposed(r, pods)) }

  ghost function Tried(selects: Selector, budgets: seq<Budget>, sorted: seq<Pod>): seq<Pod>
  {
    Violating(selects, budgets, sorted) + NonViolating(selects, budgets, sorted)
  }

  /** The first loop: takes the preemptable pods off the node, unless a priority class is unknown. */
  method TakeExposed(r: Request, node: NodeInfo) returns (known: bool, candidates: seq<Pod>)
    requires Identified(node.pods)
    modifies node
    ensures known <==> !SomeUnknown(r, old(node.pods))
    ensures known ==> candidates == Exposed(r, old(node.pods))
    ensures known ==> Identified(node.pods) && PodSet(node.pods) == Left(r, old(node.pods))
  {
    candidates := [];
    var order := node.pods;
    assert PodSet(order) - PodSet([]) == PodSet(order);
    for k := 0 to |order|
      invariant Identified(node.pods) && candidates == Exposed(r, order[..k])
      invariant PodSet(node.pods) == PodSet(order) - PodSet(candidates)
      invariant forall p :: p in order[..k] ==> !Unknown(r, p)
      invariant forall p :: p in candidates ==> p in order[..k]
    {
      var p := order[k];
      assert order[..k + 1][..k] == order[..k];
      assert forall y :: y in order[..k + 1] <==> y in order[..k] || y == p;
      if p.priority < r.pod.priority {
        var exempted := Exempted(r, p);
        if exempted.None? {
          assert p in order && Unknown(r, p);
          return false, candidates;
        }
        if !exempted.value {
          assert p !in candidates by { NotSeen(order, k); }
          assert p in PodSet(order) && p in PodSet(node.pods);
          assert PodSet(candidates + [p]) == PodSet(candidates) + {p};
          candidates := candidates + [p];
          TakeOff(node, p);
        }
      }
    }
    assert order[..|order|] == order;
    known := true;
  }

  /** SelectVictimsOnNode. The ghost result records how the candidates were sorted. */
  method SelectVictimsOnNode(fits: set<Pod> -> bool, selects: Selector, r: Request, node: NodeInfo,
                             budgets: seq<Budget>)
      returns (victims: seq<Pod>, numViolating: nat, status: Status, ghost sorted: seq<Pod>)
    requires Identified(node.pods)
    modifies node
    ensures status == Error <==> SomeUnknown(r, old(node.pods))
    ensures status == UnschedulableAndUnresolvable <==>
            !SomeUnknown(r, old(node.pods)) && Exposed(r, old(node.pods)) == []
    ensures status == Unschedulable <==>
              !SomeUnknown(r, old(node.pods)) && Exposed(r, old(node.pods)) != [] && !fits(Left(r, old(node.pods)))
    ensures status == Success <==>
              !SomeUnknown(r, old(node.pods)) && Exposed(r, old(node.pods)) != [] && fits(Left(r, old(node.pods)))
    ensures status == Success ==>
              var pods := old(node.pods);
              var tried := Tried(selects, budgets, sorted);
              && fits(Left(r, pods)) && multiset(sorted) == multiset(Exposed(r, pods)) && MostImportantFirst(sorted)
              && victims == Run(Fitting(fits, Left(r, pods)), tried).victims
              && PodSet(node.pods) == PodSet(pods) - PodSet(victims)
              && numViolating == |Run(Fitting(fits, Left(r, pods)), Violating(selects, budgets, sorted)).victims|
  {
    ghost var pods := node.pods;
    victims, numViolating, sorted := [], 0, [];
    var known, candidates := TakeExposed(r, node);
    if !known {
      return victims, numViolating, Error, sorted;
    }
    if candidates == [] {
      return victims, numViolating, UnschedulableAndUnresolvable, sorted;
    }
    if !fits(set y | y in node.pods) {
      return victims, numViolating, Unschedulable, sorted;
    }
    var ordered := SortByImportance(candidates);
    sorted := ordered;
    var violating, nonViolating := FilterPodsWithPDBViolation(selects, budgets, ordered);
    var tried := violating + nonViolating;
    ghost var rest := Left(r, pods);
    TriedIsApart(selects, budgets, r, pods, ordered);
    assert tried[..0] == [] && tried[..|violating|] == violating && tried[..|tried|] == tried;
    assert PodSet([]) == {} && rest + {} == rest;
    victims, numViolating := ReprieveEach(fits, node, tried, 0, |violating|, [], rest);
    var others;
    victims, others := ReprieveEach(fits, node, tried, |violating|, |tried|, victims, rest);
    status := Success;
    KeptAndVictims(fits, r, pods, tried);
  }

  method TakeOff(node: NodeInfo, p: Pod)
    requires Identified(node.pods) && p in node.pods
    modifies node
    ensures Identified(node.pods) && PodSet(node.pods) == PodSet(old(node.pods)) - {p}
  {
    ghost var s := node.pods;
    var removed := node.RemovePod(p);
    ghost var i :| 0 <= i < |s| && s[i].uid == p.uid && node.pods == s[..i] + s[i + 1..];
    RemovedFromSet(s, i, node.pods);
  }

  lemma TriedIsApart(selects: Selector, budgets: seq<Budget>, r: Request, pods: seq<Pod>, sorted: seq<Pod>)
    requires Identified(pods) && multiset(sorted) == multiset(Exposed(r, pods))
    ensures var tried := Tried(selects, budgets, sorted);
            && Apart(Left(r, pods), tried) && PodSet(tried) == PodSet(Exposed(r, pods)) <= PodSet(pods)
  {
    var tried := Tried(selects, budgets, sorted);
    ExposedFacts(r, pods);
    PermutedIdentified(Exposed(r, pods), sorted);
    SplitIsPartition(selects, budgets, sorted);
    PermutedIdentified(sorted, tried);
    forall i, y | 0 <= i < |tried| && y in Left(r, pods) ensures y.uid != tried[i].uid {
      assert tried[i] in PodSet(tried);
      assert tried[i] in pods && y in pods && y != tried[i];
      DifferentUids(pods, y, tried[i]);
    }
  }

  lemma KeptAndVictims(fits: set<Pod> -> bool, r: Request, pods: seq<Pod>, tried: seq<Pod>)
    requires Identified(pods) && Identified(tried) && PodSet(tried) == PodSet(Exposed(r, pods)) <= PodSet(pods)
    ensures var o := Run(Fitting(fits, Left(r, pods)), tried);
            && Left(r, pods) + PodSet(o.kept) == PodSet(pods) - PodSet(o.victims)
            && Identified(o.victims) && PodSet(o.victims) <= PodSet(tried)
  {
    var ok := Fitting(fits, Left(r, pods));
    RunSplits(ok, tried);
    DisjointHalves(tried, Run(ok, tried).kept, Run(ok, tried).victims);
  }

  /** A successful selection takes only lower-priority pods that do not tolerate the
      preemption, leaves a fitting node and, if pods leaving never spoils a node, no
      victim could be spared. */
  lemma TolerationSelectionIsIrreducible(fits: set<Pod> -> bool, selects: Selector, budgets: seq<Budget>, r: Request,
                                         pods: seq<Pod>, sorted: seq<Pod>, v: Pod)
    requires Identified(pods) && multiset(sorted) == multiset(Exposed(r, pods)) && fits(Left(r, pods))
    requires v in Run(Fitting(fits, Left(r, pods)), Tried(selects, budgets, sorted)).victims
    ensures var victims := Run(Fitting(fits, Left(r, pods)), Tried(selects, budgets, sorted)).victims;
            && v in pods && Preemptable(r, v)
            && Identified(victims) && fits(PodSet(pods) - PodSet(victims))
            && (DownClosed(fits) ==> !fits(PodSet(pods) - PodSet(victims) + {v}))
  {
    var rest, tried := Left(r, pods), Tried(selects, budgets, sorted);
    var ok := Fitting(fits, rest);
    var o := Run(ok, tried);
    TriedIsApart(selects, budgets, r, pods, sorted);
    KeptAndVictims(fits, r, pods, tried);
    ExposedFacts(r, pods);
    assert v in PodSet(o.victims) && v in PodSet(tried) && v in PodSet(Exposed(r, pods));
    assert PodSet([]) == {} && rest + {} == rest;
    RunStaysOk(ok, tried);
    if DownClosed(fits) {
      FittingIsHereditary(fits, rest, tried);
      assert Distinct(tried);
      RunIsIrreducible(ok, tried, v);
      assert PodSet(o.kept + [v]) == PodSet(o.kept) + {v};
      assert rest + PodSet(o.kept + [v]) == PodSet(pods) - PodSet(o.victims) + {v};
    }
  }
}
