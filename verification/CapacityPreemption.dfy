/** The capacity scheduling plugin's SelectVictimsOnNode, which drives the node and the
    quota snapshot through removals and reprieves in place. */
module CapacityPreemption {
  import opened Resources
  import opened Pods
  import opened ElasticQuota
  import opened DisruptionBudgets
  import opened VictimSelection

  datatype Status = Success | Unschedulable | UnschedulableAndUnresolvable | Error

  /** The pods of a node, as the scheduler's NodeInfo holds them. */
  class NodeInfo {
    var pods: seq<Pod>

    constructor (pods: seq<Pod>)
      ensures this.pods == pods
    {
      this.pods := pods;
    }

    method AddPodInfo(p: Pod)
      modifies this
      ensures pods == old(pods) + [p]
    {
      pods := pods + [p];
    }

    /** Removes the pod with p's UID; reports failure when there is none. */
    method RemovePod(p: Pod) returns (ok: bool)
      modifies this
      ensures ok <==> p.uid != "" && exists i :: 0 <= i < |old(pods)| && old(pods)[i].uid == p.uid
      ensures ok ==> exists i :: 0 <= i < |old(pods)| && old(pods)[i].uid == p.uid &&
                                 pods == old(pods)[..i] + old(pods)[i + 1..]
      ensures !ok ==> pods == old(pods)
    {
      if p.uid == "" { return false; }
      for i := 0 to |pods|
        invariant pods == old(pods)
        invariant forall j :: 0 <= j < i ==> pods[j].uid != p.uid
      {
        if pods[i].uid == p.uid {
          pods := pods[..i] + pods[i + 1..];
          return true;
        }
      }
      return false;
    }
  }

  lemma RemovedFromSet(s: seq<Pod>, i: nat, t: seq<Pod>)
    requires i < |s| && Identified(s) && t == s[..i] + s[i + 1..]
    ensures Identified(t) && PodSet(t) == PodSet(s) - {s[i]}
  {
    forall p ensures p in t <==> p in s && p != s[i] {
      if p in s && p != s[i] {
        var j :| 0 <= j < |s| && s[j] == p;
        assert if j < i then t[j] == p else t[j - 1] == p;
      }
      if p in t {
        var j :| 0 <= j < |t| && t[j] == p;
        assert p == if j < i then s[j] else s[j + 1];
      }
    }
  }

  lemma AddedToSet(s: seq<Pod>, p: Pod)
    requires Identified(s) && p.uid != "" && forall y :: y in s ==> y.uid != p.uid
    ensures Identified(s + [p]) && PodSet(s + [p]) == PodSet(s) + {p}
  {
  }

  /** removePod: off the node and out of the quota snapshot. */
  method TakePod(node: NodeInfo, infos: Infos, p: Pod) returns (ok: bool)
    requires Separate(infos) && Identified(node.pods)
    modifies node, infos.Values
    ensures Identified(node.pods)
    ensures ok <==> p.uid != "" && exists y :: y in old(node.pods) && y.uid == p.uid
    ensures ok && p in old(node.pods) ==>
              && PodSet(node.pods) == PodSet(old(node.pods)) - {p}
              && Values(infos) == ElasticQuota.RemovePod(old(Values(infos)), p)
    ensures !ok ==> node.pods == old(node.pods) && Values(infos) == old(Values(infos))
  {
    ok := node.RemovePod(p);
    if ok {
      ghost var i :| 0 <= i < |old(node.pods)| && old(node.pods)[i].uid == p.uid &&
                     node.pods == old(node.pods)[..i] + old(node.pods)[i + 1..];
      RemovedFromSet(old(node.pods), i, node.pods);
      assert old(node.pods)[i] in old(node.pods);
      RemovePodFromInfos(infos, p);
    }
  }

  /** addPod: back on the node and into the quota snapshot. */
  method PutBack(node: NodeInfo, infos: Infos, p: Pod)
    requires Separate(infos) && Identified(node.pods) && p.uid != ""
    requires forall y :: y in node.pods ==> y.uid != p.uid
    modifies node, infos.Values
    ensures Identified(node.pods) && PodSet(node.pods) == PodSet(old(node.pods)) + {p}
    ensures p in node.pods
    ensures Values(infos) == AddPod(old(Values(infos)), p)
  {
    AddedToSet(node.pods, p);
    node.AddPodInfo(p);
    AddPodToInfos(infos, p);
  }

  // ---- Sorting by importance ----

  function Insert(p: Pod, s: seq<Pod>): (r: seq<Pod>)
    ensures multiset(r) == multiset(s) + multiset{p}
  {
    if s == [] then [p]
    else if MoreImportant(s[0], p) then
      assert s == [s[0]] + s[1..];
      [s[0]] + Insert(p, s[1..])
    else [p] + s
  }

  lemma {:induction false} InsertKeepsOrder(p: Pod, s: seq<Pod>)
    requires MostImportantFirst(s)
    ensures MostImportantFirst(Insert(p, s))
  {
    if s != [] && MoreImportant(s[0], p) {
      InsertKeepsOrder(p, s[1..]);
      var r := Insert(p, s[1..]);
      forall j | 0 <= j < |r| ensures !MoreImportant(r[j], s[0]) {
        assert r[j] in multiset(r);
        assert r[j] == p || r[j] in s[1..];
      }
    }
  }

  /** sort.Slice by MoreImportantPod; ties may fall either way. */
  method SortByImportance(s: seq<Pod>) returns (r: seq<Pod>)
    ensures multiset(r) == multiset(s) && MostImportantFirst(r)
  {
    r := [];
    for i := 0 to |s|
      invariant multiset(r) == multiset(s[..i]) && MostImportantFirst(r)
    {
      InsertKeepsOrder(s[i], r);
      r := Insert(s[i], r);
      assert s[..i + 1] == s[..i] + [s[i]];
    }
    assert s[..|s|] == s;
  }

  method Reverse(s: seq<Pod>) returns (r: seq<Pod>)
    ensures |r| == |s| && multiset(r) == multiset(s)
    ensures forall i :: 0 <= i < |s| ==> r[i] == s[|s| - 1 - i]
  {
    r := [];
    for i := 0 to |s|
      invariant |r| == i && multiset(r) == multiset(s[..i])
      invariant forall j :: 0 <= j < i ==> r[j] == s[i - 1 - j]
    {
      assert s[..i + 1] == s[..i] + [s[i]];
      r := [s[i]] + r;
    }
    assert s[..|s|] == s;
  }

  // ---- Selection ----

  method IsEligible(pre: Preemptor, moreThanMin: bool, infos: Infos, p: Pod) returns (take: bool)
    ensures take == Eligible(pre, moreThanMin, Values(infos), p)
  {
    take := false;
    if pre.pod.namespace in infos {
      if p.namespace in infos {
        var eq := infos[p.namespace];
        take := if moreThanMin then p.namespace == pre.pod.namespace && p.priority < pre.pod.priority
                else p.namespace != pre.pod.namespace && Exceeds(eq.used, ZERO, eq.min, LOWER_BOUND_OF_MIN);
      }
    } else if p.namespace !in infos {
      take := p.priority < pre.pod.priority;
    }
  }

  lemma OneMore(qs: Quotas, taken: seq<Pod>, p: Pod)
    ensures PodSet(taken + [p]) == PodSet(taken) + {p}
    ensures RemoveAll(qs, taken + [p]) == ElasticQuota.RemovePod(RemoveAll(qs, taken), p)
  {
    assert (taken + [p])[..|taken|] == taken;
  }

  /** Take every eligible pod off the node, looking at each pod once. */
  method TakeCandidates(pre: Preemptor, node: NodeInfo, infos: Infos, ghost x: Input, ghost sel: Selection)
      returns (taken: seq<Pod>)
    requires Separate(infos) && Proper(x)
    requires x.pre == pre && x.quotas == Values(infos) && node.pods == sel.order &&
             multiset(sel.order) == multiset(x.pods)
    modifies node, infos.Values
    ensures taken == Taken(x, sel) && Identified(node.pods)
    ensures PodSet(node.pods) == Rest(x, sel) && Values(infos) == Stripped(x, sel)
  {
    var order := node.pods;
    PermutedIdentified(x.pods, order);
    var moreThanMin := pre.pod.namespace in infos &&
      Exceeds(pre.nominatedInQuota, infos[pre.pod.namespace].used, infos[pre.pod.namespace].min, LOWER_BOUND_OF_MIN);
    taken := [];
    assert PodSet(order) - PodSet([]) == PodSet(order);
    for k := 0 to |order|
      invariant Underway(pre, x.quotas, order, k, node.pods, Values(infos), taken)
    {
      var p := order[k];
      var take := IsEligible(pre, moreThanMin, infos, p);
      UnderwayStep(pre, x.quotas, order, k, node.pods, Values(infos), taken);
      if take {
        taken := taken + [p];
        var removed := TakePod(node, infos, p);
        assert removed;  // the pod is on the node, so the error return is never taken
      }
    }
    assert order[..|order|] == order;
  }

  /** Node and snapshot after looking at the first k pods. */
  ghost predicate Underway(pre: Preemptor, qs: Quotas, order: seq<Pod>, k: nat, pods: seq<Pod>, quotas: Quotas,
                           taken: seq<Pod>)
  {
    && k <= |order| && Identified(pods) && taken == Candidates(pre, qs, order[..k])
    && PodSet(pods) == PodSet(order) - PodSet(taken) && quotas == RemoveAll(qs, taken)
    && forall p :: p in taken ==> p in order[..k]
  }

  lemma UnderwayStep(pre: Preemptor, qs: Quotas, order: seq<Pod>, k: nat, pods: seq<Pod>, quotas: Quotas,
                     taken: seq<Pod>)
    requires k < |order| && Identified(order) && Underway(pre, qs, order, k, pods, quotas, taken)
    ensures order[k].uid != "" && order[k] in pods
    ensures if Eligible(pre, MoreThanMinWithPreemptor(pre, qs), quotas, order[k]) then
              forall left | Identified(left) && PodSet(left) == PodSet(pods) - {order[k]} ::
                Underway(pre, qs, order, k + 1, left, ElasticQuota.RemovePod(quotas, order[k]), taken + [order[k]])
            else Underway(pre, qs, order, k + 1, pods, quotas, taken)
  {
    var p := order[k];
    assert order[..k + 1][..k] == order[..k];
    assert forall y :: y in order[..k + 1] <==> y in order[..k] || y == p;
    NotSeen(order, k);
    assert p in PodSet(order) && p in PodSet(pods);
    OneMore(qs, taken, p);
  }

  lemma NotSeen(order: seq<Pod>, k: nat)
    requires k < |order| && Identified(order)
    ensures order[k] !in order[..k]
  {
  }

  /** The reprieve's quota test on the snapshot as it stands. */
  method QuotaTrips(pre: Preemptor, infos: Infos) returns (trips: bool)
    requires Sane(Values(infos))
    ensures trips == Trips(pre, Values(infos))
  {
    trips := false;
    if pre.pod.namespace in infos {
      var eq := infos[pre.pod.namespace];
      trips := Exceeds(pre.nominatedInQuota, eq.used, eq.max, UPPER_BOUND_OF_MAX);
      if !trips {
        trips := AggregatedUsedOverMinWith(infos, pre.nominatedTotal);
      }
    }
  }

  lemma SaneStep(qs: Quotas, p: Pod)
    requires Sane(qs)
    ensures Sane(AddPod(qs, p)) && Sane(ElasticQuota.RemovePod(qs, p))
  {
  }

  /** reprievePod: put one candidate back and see. Reports whether the filters
      passed, whether the pod became a victim, and whether a removal failed. */
  method ReprievePod(fits: set<Pod> -> bool, pre: Preemptor, node: NodeInfo, infos: Infos, p: Pod, ghost rest: set<Pod>,
                     ghost t: Trial)
      returns (fitting: bool, victim: bool, ok: bool)
    requires Separate(infos) && Identified(node.pods) && p.uid != "" && Sane(Values(infos))
    requires forall y :: y in node.pods ==> y.uid != p.uid
    requires t.Trial? && Values(infos) == t.quotas && PodSet(node.pods) == rest + PodSet(t.kept)
    modifies node, infos.Values
    ensures ok <==> TryPod(fits, pre, rest, t, p).Trial?
    ensures ok ==>
              var t' := TryPod(fits, pre, rest, t, p);
              && Values(infos) == t'.quotas && Identified(node.pods) && PodSet(node.pods) == rest + PodSet(t'.kept)
              && t'.victims == (if victim then t.victims + [p] else t.victims)
              && t'.misfits == (if fitting then t.misfits else t.misfits + 1)
  {
    victim, ok := false, true;
    ghost var alone := node.pods;
    PutBack(node, infos, p);
    assert PodSet(t.kept + [p]) == PodSet(t.kept) + {p};
    assert PodSet(node.pods) == rest + PodSet(t.kept + [p]);
    assert p !in PodSet(alone);
    SaneStep(t.quotas, p);
    SaneStep(AddPod(t.quotas, p), p);
    fitting := fits(set y | y in node.pods);
    if !fitting {
      ok := TakePod(node, infos, p);
      assert PodSet(node.pods) == PodSet(alone);
      assert forall y :: y in node.pods ==> y in PodSet(alone);
      victim := true;
    }
    var trips := QuotaTrips(pre, infos);
    if trips {
      ok := TakePod(node, infos, p);
      victim := true;
      assert fitting ==> PodSet(node.pods) == PodSet(alone);
    }
  }

  /** Node, snapshot and tallies are as the reprieve leaves them after `tried`. */
  ghost predicate Stands(fits: set<Pod> -> bool, pre: Preemptor, rest: set<Pod>, qs: Quotas, tried: seq<Pod>,
                         pods: seq<Pod>, quotas: Quotas, victims: seq<Pod>, misfits: nat)
  {
    var t := Reprieves(fits, pre, rest, qs, tried);
    && t.Trial? && t.victims == victims && t.quotas == quotas && t.misfits == misfits
    && Identified(pods) && PodSet(pods) == rest + PodSet(t.kept)
  }

  /** All candidates are off the node and out of the snapshot, and `rest` is what stays. */
  ghost predicate SetApart(rest: set<Pod>, qs: Quotas, candidates: seq<Pod>)
  {
    && Identified(candidates) && Untracked(qs, candidates) && Sane(qs)
    && forall i, y :: 0 <= i < |candidates| && y in rest ==> y.uid != candidates[i].uid
  }

  lemma UpNext(fits: set<Pod> -> bool, pre: Preemptor, rest: set<Pod>, qs: Quotas, candidates: seq<Pod>, i: nat,
               pods: seq<Pod>, quotas: Quotas, victims: seq<Pod>, misfits: nat)
    requires i < |candidates| && SetApart(rest, qs, candidates)
    requires Stands(fits, pre, rest, qs, candidates[..i], pods, quotas, victims, misfits)
    ensures Sane(quotas) && candidates[i].uid != ""
    ensures forall y :: y in pods ==> y.uid != candidates[i].uid
  {
    var first := candidates[..i];
    assert forall p :: p in first ==> p in candidates;
    ReprievesRefinesRun(fits, pre, rest, qs, first);
    var t := Reprieves(fits, pre, rest, qs, first);
    SaneAddAll(qs, t.kept);
    forall y | y in pods ensures y.uid != candidates[i].uid {
      assert y in PodSet(pods);
      if y in t.kept {
        assert y in first;
        var j :| 0 <= j < i && first[j] == y;
        assert candidates[j] == y;
      }
    }
  }

  lemma NextTrial(fits: set<Pod> -> bool, pre: Preemptor, rest: set<Pod>, qs: Quotas, candidates: seq<Pod>, k: nat)
    requires k < |candidates| && Reprieves(fits, pre, rest, qs, candidates[..k]).Trial?
    ensures Reprieves(fits, pre, rest, qs, candidates[..k + 1]) ==
            TryPod(fits, pre, rest, Reprieves(fits, pre, rest, qs, candidates[..k]), candidates[k])
  {
    assert candidates[..k + 1][..k] == candidates[..k];
  }

  /** One turn of a reprieve loop. */
  method ReprieveNext(fits: set<Pod> -> bool, pre: Preemptor, node: NodeInfo, infos: Infos, candidates: seq<Pod>,
                      k: nat, victims0: seq<Pod>, misfits0: nat, ghost rest: set<Pod>, ghost qs: Quotas)
      returns (victims: seq<Pod>, misfits: nat, ok: bool)
    requires Separate(infos) && k < |candidates| && SetApart(rest, qs, candidates)
    requires Stands(fits, pre, rest, qs, candidates[..k], node.pods, Values(infos), victims0, misfits0)
    modifies node, infos.Values
    ensures ok ==> Stands(fits, pre, rest, qs, candidates[..k + 1], node.pods, Values(infos), victims, misfits)
    ensures !ok ==> Reprieves(fits, pre, rest, qs, candidates).DoubleRemoval?
  {
    victims, misfits := victims0, misfits0;
    var p := candidates[k];
    UpNext(fits, pre, rest, qs, candidates, k, node.pods, Values(infos), victims, misfits);
    ghost var t := Reprieves(fits, pre, rest, qs, candidates[..k]);
    NextTrial(fits, pre, rest, qs, candidates, k);
    var fitting, victim;
    fitting, victim, ok := ReprievePod(fits, pre, node, infos, p, rest, t);
    if !ok {
      DoubleRemovalStays(fits, pre, rest, qs, candidates, k + 1);
      return;
    }
    if victim { victims := victims + [p]; }
    if !fitting { misfits := misfits + 1; }
  }

  /** One of the two reprieve loops, over candidates[from..to]. */
  method ReprieveEach(fits: set<Pod> -> bool, pre: Preemptor, node: NodeInfo, infos: Infos, candidates: seq<Pod>,
                      from: nat, to: nat, victims0: seq<Pod>, misfits0: nat, ghost rest: set<Pod>, ghost qs: Quotas)
      returns (victims: seq<Pod>, misfits: nat, ok: bool)
    requires Separate(infos) && from <= to <= |candidates| && SetApart(rest, qs, candidates)
    requires Stands(fits, pre, rest, qs, candidates[..from], node.pods, Values(infos), victims0, misfits0)
    modifies node, infos.Values
    ensures ok ==> Stands(fits, pre, rest, qs, candidates[..to], node.pods, Values(infos), victims, misfits)
    ensures !ok ==> Reprieves(fits, pre, rest, qs, candidates).DoubleRemoval?
  {
    victims, misfits, ok := victims0, misfits0, true;
    for k := from to to
      invariant Stands(fits, pre, rest, qs, candidates[..k], node.pods, Values(infos), victims, misfits)
      invariant ok
    {
      victims, misfits, ok := ReprieveNext(fits, pre, node, infos, candidates, k, victims, misfits, rest, qs);
      if !ok { return; }
    }
  }

  /** Sort the node's pods, take off the eligible ones and sort those. */
  method SetAside(pre: Preemptor, node: NodeInfo, infos: Infos, ghost x: Input)
      returns (sorted: seq<Pod>, ghost sel: Selection)
    requires Separate(infos) && Proper(x) && x.pre == pre && x.pods == node.pods && x.quotas == Values(infos)
    modifies node, infos.Values
    ensures Arranged(x, sel) && sorted == sel.sorted && (sorted == [] <==> Taken(x, sel) == [])
    ensures Identified(node.pods) && PodSet(node.pods) == Rest(x, sel) && Values(infos) == Stripped(x, sel)
    ensures Sane(Values(infos))
  {
    var byImportance := SortByImportance(node.pods);
    var order := Reverse(byImportance);
    node.pods := order;
    sel := Selection(order, []);
    var taken := TakeCandidates(pre, node, infos, x, sel);
    sorted := SortByImportance(taken);
    sel := Selection(order, sorted);
    assert |sorted| == |taken| by { assert |multiset(sorted)| == |multiset(taken)|; }
    TriedFacts((p, b) => false, x, sel);
  }

  /** SelectVictimsOnNode. The ghost result records the two sorted orders. */
  method SelectVictimsOnNode(fits: set<Pod> -> bool, selects: Selector, pre: Preemptor, node: NodeInfo, infos: Infos,
                             budgets: seq<Budget>)
      returns (victims: seq<Pod>, numViolating: nat, status: Status, ghost sel: Selection)
    requires Separate(infos)
    requires Proper(Input(node.pods, Values(infos), pre, budgets))
    modifies node, infos.Values
    ensures var x := Input(old(node.pods), old(Values(infos)), pre, budgets);
            && Arranged(x, sel)
            && (status == UnschedulableAndUnresolvable <==> Taken(x, sel) == [])
            && (status == Success <==> Promising(fits, x, sel) && !Blocked(fits, x, sel))
            && (status == Error <==> Promising(fits, x, sel) && Blocked(fits, x, sel))
            && (status == Success ==>
                  && Succeeds(fits, selects, x, sel)
                  && victims == Verdict(fits, selects, x, sel).victims
                  && PodSet(node.pods) == PodSet(x.pods) - PodSet(victims)
                  && Values(infos) == Verdict(fits, selects, x, sel).quotas
                  && var t := Reprieves(fits, pre, Rest(x, sel), Stripped(x, sel),
                    Violating(selects, budgets, sel.sorted));
                     t.Trial? && numViolating == t.misfits)
  {
    ghost var x := Input(node.pods, Values(infos), pre, budgets);
    victims, numViolating := [], 0;
    var sorted;
    sorted, sel := SetAside(pre, node, infos, x);
    if sorted == [] {
      return victims, numViolating, UnschedulableAndUnresolvable, sel;
    }
    if !fits(set y | y in node.pods) {
      return victims, numViolating, Unschedulable, sel;
    }
    var within := PreemptorWithinQuota(pre, infos);
    if !within {
      return victims, numViolating, Unschedulable, sel;
    }
    var ok;
    victims, numViolating, ok := ReprieveCandidates(fits, selects, pre, node, infos, budgets, sorted, x, sel);
    status := if ok then Success else Error;
    SelectionFailsIff(fits, selects, x, sel);
    if ok {
      TrialSplits(fits, selects, x, sel);
    }
  }

  /** Split the candidates by their budgets and reprieve the violating ones first. */
  method ReprieveCandidates(fits: set<Pod> -> bool, selects: Selector, pre: Preemptor, node: NodeInfo, infos: Infos,
                            budgets: seq<Budget>, sorted: seq<Pod>, ghost x: Input, ghost sel: Selection)
      returns (victims: seq<Pod>, numViolating: nat, ok: bool)
    requires Separate(infos) && Proper(x) && Arranged(x, sel)
    requires x.pre == pre && x.budgets == budgets && sel.sorted == sorted
    requires Identified(node.pods) && PodSet(node.pods) == Rest(x, sel) && Values(infos) == Stripped(x, sel)
    modifies node, infos.Values
    ensures ok <==> Verdict(fits, selects, x, sel).Trial?
    ensures ok ==>
              var t := Verdict(fits, selects, x, sel);
              && victims == t.victims && Values(infos) == t.quotas && PodSet(node.pods) == Rest(x, sel) + PodSet(t.kept)
              && var v := Reprieves(fits, pre, Rest(x, sel), Stripped(x, sel), Violating(selects, budgets, sel.sorted));
                 v.Trial? && numViolating == v.misfits
  {
    var violating, nonViolating := FilterPodsWithPDBViolation(selects, budgets, sorted);
    var tried := violating + nonViolating;
    ghost var rest, qs := Rest(x, sel), Stripped(x, sel);
    CandidatesSetApart(selects, x, sel);
    assert tried[..0] == [] && tried[..|violating|] == violating && tried[..|tried|] == tried;
    assert PodSet([]) == {} && rest + {} == rest;
    victims, numViolating, ok := ReprieveEach(fits, pre, node, infos, tried, 0, |violating|, [], 0, rest, qs);
    if ok {
      var misfits;
      victims, misfits, ok := ReprieveEach(fits, pre, node, infos, tried, |violating|, |tried|, victims, numViolating,
        rest, qs);
    }
  }

  /** The check made once every candidate is gone. */
  method PreemptorWithinQuota(pre: Preemptor, infos: Infos) returns (within: bool)
    requires Sane(Values(infos))
    ensures within == WithinQuota(pre, Values(infos))
  {
    within := true;
    if pre.pod.namespace in infos {
      var eq := infos[pre.pod.namespace];
      var over := Exceeds(pre.podReq, eq.used, eq.max, UPPER_BOUND_OF_MAX);
      if !over {
        over := AggregatedUsedOverMinWith(infos, pre.podReq);
      }
      within := !over;
    }
  }

  lemma CandidatesSetApart(selects: Selector, x: Input, sel: Selection)
    requires Proper(x) && Arranged(x, sel)
    ensures SetApart(Rest(x, sel), Stripped(x, sel), Tried(selects, x, sel))
  {
    TriedFacts(selects, x, sel);
    var tried := Tried(selects, x, sel);
    forall i, y | 0 <= i < |tried| && y in Rest(x, sel) ensures y.uid != tried[i].uid {
      assert tried[i] in PodSet(tried);
      assert tried[i] in x.pods && y in x.pods && y != tried[i];
      DifferentUids(x.pods, y, tried[i]);
    }
  }
}
