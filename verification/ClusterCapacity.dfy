/** The coarse cluster check made for a pod group: subtract each node's leftovers
    from the group's request until nothing is missing. */
module ClusterCapacity {
  import opened Options
  import opened Resources
  import opened Sums

  datatype GroupPod = GroupPod(uid: string, group: string, request: Resource)

  datatype NodeState = NodeState(allocatable: Resource, pods: seq<GroupPod>)

  // ---- What a node has left for a group ----

  /** What pods outside the group ask for. */
  ghost function OthersAsk(pods: seq<GroupPod>, group: string, d: Dimension): int
  {
    if pods == [] then 0
    else
      var n := |pods| - 1;
      OthersAsk(pods[..n], group, d) + if pods[n].group != group then Amount(pods[n].request, d) else 0
  }

  ghost function Others(pods: seq<GroupPod>, group: string): nat
  {
    if pods == [] then 0
    else
      var n := |pods| - 1;
      Others(pods[..n], group) + if pods[n].group != group then 1 else 0
  }

  /** What the node has requested of it in all, as its NodeInfo keeps it. */
  function Requested(pods: seq<GroupPod>): Resource
  {
    if pods == [] then ZERO else Plus(Requested(pods[..|pods| - 1]), pods[|pods| - 1].request)
  }

  /** What is allocatable minus what pods outside the group ask for; a scalar that the node does
      not list counts as none. */
  ghost function Leftover(node: NodeState, group: string, d: Dimension): int
  {
    if d == PodNumber then node.allocatable.allowedPodNumber - Others(node.pods, group)
    else if Listed(node.allocatable, d) then Amount(node.allocatable, d) - OthersAsk(node.pods, group, d)
    else 0
  }

  /** Positions of the pods outside the group. */
  ghost function Outsiders(pods: seq<GroupPod>, group: string): set<nat>
  {
    set i: nat | i < |pods| && pods[i].group != group
  }

  ghost function AskAt(pods: seq<GroupPod>, d: Dimension): nat -> int
  {
    (i: nat) => if i < |pods| then Amount(pods[i].request, d) else 0
  }

  lemma {:induction false} OthersCounted(pods: seq<GroupPod>, group: string)
    ensures Others(pods, group) == |Outsiders(pods, group)|
  {
    if pods == [] {
      assert Outsiders(pods, group) == {};
    } else {
      OthersCounted(pods[..|pods| - 1], group);
      OutsidersGrow(pods, group);
    }
  }

  lemma {:induction false} OthersSummed(pods: seq<GroupPod>, group: string, d: Dimension)
    ensures OthersAsk(pods, group, d) == Sum(Outsiders(pods, group), AskAt(pods, d))
  {
    if pods == [] {
      assert Outsiders(pods, group) == {};
    } else {
      OthersSummed(pods[..|pods| - 1], group, d);
      OutsidersGrow(pods, group);
      SumGrows(pods, Outsiders(pods[..|pods| - 1], group), d);
    }
  }

  /** One more pod, counted or not. */
  lemma SumGrows(pods: seq<GroupPod>, few: set<nat>, d: Dimension)
    requires pods != [] && forall i :: i in few ==> i < |pods| - 1
    ensures var n: nat := |pods| - 1;
            && Sum(few, AskAt(pods, d)) == Sum(few, AskAt(pods[..n], d))
            && Sum(few + {n}, AskAt(pods, d)) == Sum(few, AskAt(pods[..n], d)) + Amount(pods[n].request, d)
  {
    var n: nat := |pods| - 1;
    SumSame(few, AskAt(pods[..n], d), AskAt(pods, d));
    SumInsert(few, AskAt(pods, d), n);
  }

  lemma OutsidersGrow(pods: seq<GroupPod>, group: string)
    requires pods != []
    ensures var n: nat := |pods| - 1;
            var few := Outsiders(pods[..n], group);
            n !in few && Outsiders(pods, group) == if pods[n].group != group then few + {n} else few
  {
  }

  /** What is left in numbers: allocatable less the requests of the pods outside the group, and
      of the pod slots less their number. */
  lemma LeftoverInNumbers(node: NodeState, group: string, d: Dimension)
    ensures Leftover(node, group, PodNumber) == node.allocatable.allowedPodNumber - |Outsiders(node.pods, group)|
    ensures d != PodNumber && Listed(node.allocatable, d) ==>
              Leftover(node, group, d) ==
              Amount(node.allocatable, d) - Sum(Outsiders(node.pods, group), AskAt(node.pods, d))
    ensures !Listed(node.allocatable, d) ==> Leftover(node, group, d) == 0
  {
    OthersSummed(node.pods, group, d);
    OthersCounted(node.pods, group);
  }

  /** getNodeResource: takes the group's own pods off the node's books. */
  method GetNodeResource(node: NodeState, group: string) returns (left: Resource)
    ensures forall d :: Amount(left, d) == Leftover(node, group, d)
  {
    var requested, count := Requested(node.pods), |node.pods|;
    ghost var all := node.pods;
    assert all[..|all|] == all;
    for i := 0 to |node.pods|
      invariant forall d :: Amount(requested, d) ==
                  Amount(Requested(all), d) - Amount(Requested(all[..i]), d) + OthersAsk(all[..i], group, d)
      invariant count == |all| - i + Others(all[..i], group)
    {
      assert all[..i + 1][..i] == all[..i];
      if node.pods[i].group == group {
        requested := Minus(requested, node.pods[i].request);
        count := count - 1;
      }
    }
    left := Resource(node.allocatable.milliCPU - requested.milliCPU,
                     node.allocatable.memory - requested.memory,
                     node.allocatable.ephemeralStorage - requested.ephemeralStorage,
                     node.allocatable.allowedPodNumber - count,
                     map k | k in node.allocatable.scalars ::
                       if k in requested.scalars then node.allocatable.scalars[k] - requested.scalars[k]
                       else node.allocatable.scalars[k]);
    assert forall d :: Amount(requested, d) == OthersAsk(all, group, d);
  }

  // ---- The greedy check ----

  /** Leftovers of the first k nodes; a node that is gone has none. */
  ghost function Sofar(nodes: seq<Option<NodeState>>, group: string, k: nat, d: Dimension): int
    requires k <= |nodes|
  {
    if k == 0 then 0
    else Sofar(nodes, group, k - 1, d) + if nodes[k - 1].Some? then Leftover(nodes[k - 1].value, group, d) else 0
  }

  /** At one of the first k nodes the request for d was met. */
  ghost predicate Met(nodes: seq<Option<NodeState>>, group: string, k: nat, d: Dimension, qty: int)
    requires k <= |nodes|
  {
    exists j :: 0 <= j < k && nodes[j].Some? && Sofar(nodes, group, j + 1, d) >= qty
  }

  ghost predicate HasNode(nodes: seq<Option<NodeState>>, k: nat)
    requires k <= |nodes|
  {
    exists j :: 0 <= j < k && nodes[j].Some?
  }

  /** Subtract one node's leftovers from what is missing, dropping what is met. */
  method SubtractNode(missing: map<Dimension, int>, node: Resource) returns (out: map<Dimension, int>)
    ensures forall d :: d in out <==> d in missing && missing[d] - Amount(node, d) > 0
    ensures forall d :: d in out ==> out[d] == missing[d] - Amount(node, d)
  {
    out := missing;
    var names := missing.Keys;
    while names != {}
      invariant names <= missing.Keys && out.Keys <= missing.Keys
      invariant forall d :: d in missing && d in names ==> d in out && out[d] == missing[d]
      invariant forall d :: d in missing && d !in names ==>
                  (d in out <==> missing[d] - Amount(node, d) > 0) &&
                    (d in out ==> out[d] == missing[d] - Amount(node, d))
      decreases names
    {
      var d :| d in names;
      var quant := missing[d] - Amount(node, d);
      if quant <= 0 { out := out - {d}; } else { out := out[d := quant]; }
      names := names - {d};
    }
  }

  /** CheckClusterResource */
  method CheckClusterResource(nodes: seq<Option<NodeState>>, group: string, request: map<Dimension, int>)
      returns (ok: bool)
    ensures ok <==> HasNode(nodes, |nodes|) && forall d :: d in request ==> Met(nodes, group, |nodes|, d, request[d])
  {
    var missing := request;
    for k := 0 to |nodes|
      invariant forall d :: d in missing <==> d in request && !Met(nodes, group, k, d, request[d])
      invariant forall d :: d in missing ==> missing[d] == request[d] - Sofar(nodes, group, k, d)
      invariant HasNode(nodes, k) ==> missing != map[]
    {
      MetStep(nodes, group, k, request);
      if nodes[k].None? { continue; }
      var left := GetNodeResource(nodes[k].value, group);
      missing := SubtractNode(missing, left);
      if missing == map[] {
        forall d | d in request ensures Met(nodes, group, |nodes|, d, request[d]) {
          assert Met(nodes, group, k + 1, d, request[d]);
          MetGrows(nodes, group, k + 1, |nodes|, d, request[d]);
        }
        return true;
      }
    }
    ok := false;
    if HasNode(nodes, |nodes|) {
      ghost var d :| d in missing;
    }
  }

  lemma MetGrows(nodes: seq<Option<NodeState>>, group: string, a: nat, b: nat, d: Dimension, qty: int)
    requires a <= b <= |nodes| && Met(nodes, group, a, d, qty)
    ensures Met(nodes, group, b, d, qty)
  {
    var j :| 0 <= j < a && nodes[j].Some? && Sofar(nodes, group, j + 1, d) >= qty;
  }

  lemma MetStep(nodes: seq<Option<NodeState>>, group: string, k: nat, request: map<Dimension, int>)
    requires k < |nodes|
    ensures forall d :: d in request ==>
              (Met(nodes, group, k + 1, d, request[d]) <==>
               Met(nodes, group, k, d, request[d]) || (nodes[k].Some? && Sofar(nodes, group, k + 1, d) >= request[d]))
    ensures HasNode(nodes, k + 1) <==> HasNode(nodes, k) || nodes[k].Some?
  {
  }

  lemma {:induction false} SofarGrows(nodes: seq<Option<NodeState>>, group: string, j: nat, k: nat, d: Dimension)
    requires j <= k <= |nodes|
    requires forall i :: 0 <= i < |nodes| && nodes[i].Some? ==> Leftover(nodes[i].value, group, d) >= 0
    ensures Sofar(nodes, group, j, d) <= Sofar(nodes, group, k, d)
  {
    if j < k { SofarGrows(nodes, group, j, k - 1, d); }
  }

  lemma {:induction false} LastNodeHasTotal(nodes: seq<Option<NodeState>>, group: string, k: nat, d: Dimension)
      returns (j: nat)
    requires k <= |nodes| && HasNode(nodes, k)
    ensures j < k && nodes[j].Some? && Sofar(nodes, group, j + 1, d) == Sofar(nodes, group, k, d)
  {
    if nodes[k - 1].Some? {
      j := k - 1;
    } else {
      j := LastNodeHasTotal(nodes, group, k - 1, d);
    }
  }

  /** No prefix of the nodes has more left than all of them together. */
  ghost predicate TotalIsPeak(nodes: seq<Option<NodeState>>, group: string, d: Dimension)
  {
    forall j :: 0 <= j < |nodes| && nodes[j].Some? ==> Sofar(nodes, group, j + 1, d) <= Sofar(nodes, group, |nodes|, d)
  }

  /** The greedy check is the plain total test on every request exactly when no prefix of the
      nodes has more left than all of them together. */
  lemma GreedyIsTotalTestIff(nodes: seq<Option<NodeState>>, group: string, d: Dimension)
    requires HasNode(nodes, |nodes|)
    ensures (forall qty: int :: Met(nodes, group, |nodes|, d, qty) <==> Sofar(nodes, group, |nodes|, d) >= qty) <==>
            TotalIsPeak(nodes, group, d)
  {
    var total := Sofar(nodes, group, |nodes|, d);
    var last := LastNodeHasTotal(nodes, group, |nodes|, d);
    if TotalIsPeak(nodes, group, d) {
      forall qty: int ensures Met(nodes, group, |nodes|, d, qty) <==> total >= qty {
        if total >= qty { assert Sofar(nodes, group, last + 1, d) >= qty; }
      }
    } else {
      var j :| 0 <= j < |nodes| && nodes[j].Some? && Sofar(nodes, group, j + 1, d) > total;
      assert Met(nodes, group, |nodes|, d, Sofar(nodes, group, j + 1, d));
    }
  }

  /** In particular when no node is overcommitted. */
  lemma GreedyIsTotalTest(nodes: seq<Option<NodeState>>, group: string, d: Dimension, qty: int)
    requires HasNode(nodes, |nodes|)
    requires forall i :: 0 <= i < |nodes| && nodes[i].Some? ==> Leftover(nodes[i].value, group, d) >= 0
    ensures Met(nodes, group, |nodes|, d, qty) <==> Sofar(nodes, group, |nodes|, d) >= qty
  {
    forall j | 0 <= j < |nodes| && nodes[j].Some?
      ensures Sofar(nodes, group, j + 1, d) <= Sofar(nodes, group, |nodes|, d)
    {
      SofarGrows(nodes, group, j + 1, |nodes|, d);
    }
    GreedyIsTotalTestIff(nodes, group, d);
  }

  /** An overcommitted node late in the list breaks it: the check succeeds though nothing is left in all. */
  lemma OvercommitFoolsTheCheck(group: string, other: GroupPod)
    requires other.group != group && other.request == Resource(0, 5, 0, 0, map[])
    ensures var nodes := [Some(NodeState(other.request, [])), Some(NodeState(ZERO, [other]))];
            Met(nodes, group, 2, Memory, 5) && Sofar(nodes, group, 2, Memory) == 0 && !TotalIsPeak(nodes, group, Memory)
  {
    var nodes := [Some(NodeState(other.request, [])), Some(NodeState(ZERO, [other]))];
    assert [other][..0] == [];
    assert OthersAsk([other], group, Memory) == OthersAsk([], group, Memory) + 5;
    assert Sofar(nodes, group, 1, Memory) == Sofar(nodes, group, 0, Memory) + 5;
    assert Sofar(nodes, group, 2, Memory) == Sofar(nodes, group, 1, Memory) - 5;
    assert nodes[0].Some? && Sofar(nodes, group, 0 + 1, Memory) >= 5;
  }
}
