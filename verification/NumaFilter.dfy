/** The single-NUMA-node filter: can all the resources of a pod, or of each of its
    containers, be had from one NUMA node? */
module NumaFilter {
  import opened Options
  import opened EffectiveRequest
  import opened Topology
  import opened NumaNodes
  import opened TopologyCache
  import opened Sums

  /** Some node with this id offers enough of the resource. */
  ghost predicate Offers(nodes: seq<NUMANode>, guaranteed: bool, name: string, qty: nat, id: nat)
  {
    exists i :: 0 <= i < |nodes| && nodes[i].id == id && name in nodes[i].resources &&
                IsSuitable(guaranteed, name, qty, nodes[i].resources[name])
  }

  ghost predicate OnSomeNode(nodes: seq<NUMANode>, name: string)
  {
    exists i :: 0 <= i < |nodes| && name in nodes[i].resources
  }

  /** This resource does not stand in the way of placing the request on `id`. */
  ghost predicate Allows(nodes: seq<NUMANode>, guaranteed: bool, name: string, qty: nat, id: nat)
  {
    qty == 0 || (!OnSomeNode(nodes, name) && IsHostLevel(name)) || Offers(nodes, guaranteed, name, qty, id)
  }

  ghost predicate FitsOn(nodes: seq<NUMANode>, guaranteed: bool, request: ResourceList, id: nat)
  {
    id < MAX_NUMA_ID && forall name :: name in request ==> Allows(nodes, guaranteed, name, request[name], id)
  }

  /** The node as a whole lists every resource asked for. */
  ghost predicate ListedAll(allocatable: set<string>, request: ResourceList)
  {
    forall name :: name in request && request[name] > 0 ==> name in allocatable
  }

  ghost predicate Accepts(nodes: seq<NUMANode>, guaranteed: bool, allocatable: set<string>, request: ResourceList)
  {
    ListedAll(allocatable, request) && exists id: nat :: FitsOn(nodes, guaranteed, request, id)
  }

  lemma OffersStep(nodes: seq<NUMANode>, guaranteed: bool, name: string, qty: nat, k: nat)
    requires k < |nodes|
    ensures forall id: nat :: Offers(nodes[..k + 1], guaranteed, name, qty, id) <==>
              || Offers(nodes[..k], guaranteed, name, qty, id)
              || (nodes[k].id == id && name in nodes[k].resources &&
                IsSuitable(guaranteed, name, qty, nodes[k].resources[name]))
  {
    assert forall i :: 0 <= i < k ==> nodes[..k][i] == nodes[..k + 1][i];
    assert nodes[..k + 1][k] == nodes[k];
    forall id: nat | Offers(nodes[..k], guaranteed, name, qty, id)
      ensures Offers(nodes[..k + 1], guaranteed, name, qty, id)
    {
      var i :| 0 <= i < k && nodes[..k][i].id == id && name in nodes[..k][i].resources &&
               IsSuitable(guaranteed, name, qty, nodes[..k][i].resources[name]);
      assert nodes[..k + 1][i] == nodes[..k][i];
    }
  }

  /** Intersect the mask with the ids that can give one resource. */
  method NarrowMask(nodes: seq<NUMANode>, guaranteed: bool, name: string, qty: nat, mask: set<nat>)
      returns (out: set<nat>)
    requires qty > 0 && forall id :: id in mask ==> id < MAX_NUMA_ID
    ensures forall id :: id in out <==> id in mask && Allows(nodes, guaranteed, name, qty, id)
  {
    var hasAffinity := false;
    var good: set<nat> := {};
    for i := 0 to |nodes|
      invariant hasAffinity <==> exists j :: 0 <= j < i && name in nodes[j].resources
      invariant forall id: nat :: id in good <==> (id < MAX_NUMA_ID && Offers(nodes[..i], guaranteed, name, qty, id))
    {
      OffersStep(nodes, guaranteed, name, qty, i);
      if name in nodes[i].resources {
        hasAffinity := true;
        if IsSuitable(guaranteed, name, qty, nodes[i].resources[name]) && nodes[i].id < MAX_NUMA_ID {
          good := good + {nodes[i].id};
        }
      }
    }
    assert nodes[..|nodes|] == nodes;
    if !hasAffinity && IsHostLevel(name) {
      return mask;
    }
    out := mask * good;
  }

  method LowestBit(mask: set<nat>) returns (id: nat)
    requires mask != {} && forall b :: b in mask ==> b < MAX_NUMA_ID
    ensures id in mask && forall b :: b in mask ==> id <= b
  {
    id := 0;
    while id !in mask
      invariant id <= MAX_NUMA_ID && forall b :: b in mask ==> id <= b
      decreases MAX_NUMA_ID - id
    {
      id := id + 1;
    }
  }

  /** resourcesAvailableInAnyNUMANodes: the verdict and the lowest id do not depend
      on the order in which the requested resources are visited. */
  method ResourcesAvailableInAnyNUMANodes(nodes: seq<NUMANode>, request: ResourceList, guaranteed: bool,
                                          allocatable: set<string>)
      returns (id: nat, aligned: bool)
    ensures aligned <==> Accepts(nodes, guaranteed, allocatable, request)
    ensures aligned ==> FitsOn(nodes, guaranteed, request, id) && forall j: nat :: j < id ==>
            !FitsOn(nodes, guaranteed, request, j)
    ensures !aligned ==> id == HIGHEST_NUMA_ID
  {
    id := HIGHEST_NUMA_ID;
    var mask := BitsBelow(MAX_NUMA_ID);
    var names := request.Keys;
    assert 0 in mask;
    while names != {}
      invariant names <= request.Keys && mask != {}
      invariant forall b: nat :: b in mask <==>
                  (b < MAX_NUMA_ID && forall n :: n in request.Keys - names ==>
                    Allows(nodes, guaranteed, n, request[n], b))
      invariant forall n :: n in request.Keys - names && request[n] > 0 ==> n in allocatable
      decreases names
    {
      var name :| name in names;
      var rest := names - {name};
      assert forall n :: n in request.Keys - rest <==> n in request.Keys - names || n == name;
      if request[name] != 0 {
        if name !in allocatable {
          return id, false;
        }
        mask := NarrowMask(nodes, guaranteed, name, request[name], mask);
        if mask == {} {
          forall b: nat ensures !FitsOn(nodes, guaranteed, request, b) {
            if b < MAX_NUMA_ID { assert b !in mask; }
          }
          return id, false;
        }
      }
      names := rest;
    }
    assert forall b: nat :: b in mask <==> FitsOn(nodes, guaranteed, request, b);
    id := LowestBit(mask);
    aligned := true;
  }

  /** More of everything never turns an accepted request down, and can only lower the chosen id. */
  lemma AcceptsIsMonotone(a: seq<NUMANode>, b: seq<NUMANode>, guaranteed: bool, allocatable: set<string>,
                          request: ResourceList)
    requires NoMoreOnNodes(a, b)
    ensures Accepts(a, guaranteed, allocatable, request) ==> Accepts(b, guaranteed, allocatable, request)
    ensures forall id :: FitsOn(a, guaranteed, request, id) ==> FitsOn(b, guaranteed, request, id)
  {
    forall id | FitsOn(a, guaranteed, request, id) ensures FitsOn(b, guaranteed, request, id) {
      forall name | name in request ensures Allows(b, guaranteed, name, request[name], id) {
        assert Allows(a, guaranteed, name, request[name], id);
        if Offers(a, guaranteed, name, request[name], id) {
          var i :| 0 <= i < |a| && a[i].id == id && name in a[i].resources &&
                   IsSuitable(guaranteed, name, request[name], a[i].resources[name]);
          assert b[i].id == id && name in b[i].resources;
        }
        if OnSomeNode(b, name) {
          var i :| 0 <= i < |b| && name in b[i].resources;
          assert name in a[i].resources;
        }
      }
    }
  }

  /** Pod scope: the whole effective request from one NUMA node. */
  ghost predicate PodAccepted(zones: seq<Zone>, pod: TopologyPod, guaranteed: bool, allocatable: set<string>)
  {
    Accepts(NodeList(zones), guaranteed, allocatable, Effective(pod))
  }

  /** singleNUMAPodLevelHandler; `ok` is false where extracting the node list breaks down. */
  method SingleNUMAPodLevelHandler(zones: seq<Zone>, pod: TopologyPod, guaranteed: bool, allocatable: set<string>)
      returns (ok: bool, accepted: bool)
    ensures ok <==> forall i :: 0 <= i < |zones| && zones[i].kind == "Node" ==> zones[i].id != Some(64)
    ensures ok ==> (accepted <==> PodAccepted(zones, pod, guaranteed, allocatable))
  {
    var request := GetPodEffectiveRequest(pod);
    var nodes;
    ghost var ps;
    ok, nodes, ps := CreateNUMANodeList(zones);
    if !ok { return false, false; }
    var id;
    id, accepted := ResourcesAvailableInAnyNUMANodes(nodes, request, guaranteed, allocatable);
  }

  /** No false positives: however the assumed pods are really spread over the zones, a
      pod accepted on the pessimistic view fits one NUMA node of the real machine. */
  lemma NoFalsePositives(zones: seq<Zone>, assumed: Assumed, use: (string, nat, string) -> nat, pod: TopologyPod,
                         guaranteed: bool, allocatable: set<string>)
    requires RealUsage(assumed, use)
    requires PodAccepted(View(zones, assumed), pod, guaranteed, allocatable)
    ensures PodAccepted(Truth(zones, assumed, use), pod, guaranteed, allocatable)
  {
    var view, truth := View(zones, assumed), Truth(zones, assumed, use);
    ViewIsLowerBound(zones, assumed, use);
    NoMoreUpTo(view, truth, view, truth);
    AcceptsIsMonotone(NodeList(view), NodeList(truth), guaranteed, allocatable, Effective(pod));
  }

  // ---- Pod scope, told by zones ----

  ghost predicate IsNuma(z: Zone) { z.kind == "Node" && z.id.Some? && z.id.value < 64 }

  /** No two NUMA zones have the same id, and the ids fit a bit mask. */
  ghost predicate ProperIds(zones: seq<Zone>)
  {
    && (forall i :: 0 <= i < |zones| && zones[i].kind == "Node" && zones[i].id.Some? && zones[i].id.value <= 64 ==>
          IsNuma(zones[i]))
    && forall i, j :: 0 <= i < j < |zones| && IsNuma(zones[i]) && IsNuma(zones[j]) ==> zones[i].id != zones[j].id
  }

  /** The zone lists the resource, and has enough of it unless that is not checked. */
  ghost predicate ZoneGives(z: Zone, guaranteed: bool, name: string, qty: nat)
  {
    exists i: nat, amount: nat ::
      IsLastResource(z.resources, name, amount, i) && (Checked(guaranteed, name) ==> amount >= qty)
  }

  /** Nothing to ask of the NUMA zones for this resource. */
  ghost predicate Unbound(zones: seq<Zone>, name: string, qty: nat)
  {
    qty == 0 || (IsHostLevel(name) && forall z :: 0 <= z < |zones| && IsNuma(zones[z]) ==> !Lists(zones[z], name))
  }

  ghost predicate Lists(z: Zone, name: string) { exists i :: 0 <= i < |z.resources| && z.resources[i].name == name }

  ghost predicate ZoneSuits(zones: seq<Zone>, z: Zone, guaranteed: bool, request: ResourceList)
  {
    forall name :: name in request ==>
      Unbound(zones, name, request[name]) || ZoneGives(z, guaranteed, name, request[name])
  }

  lemma NodeGivesIff(zones: seq<Zone>, z: nat, node: NUMANode, guaranteed: bool, name: string, qty: nat)
    requires z < |zones| && Describes(zones, z, node)
    ensures name in node.resources && IsSuitable(guaranteed, name, qty, node.resources[name]) <==>
            ZoneGives(zones[z], guaranteed, name, qty)
    ensures name in node.resources <==> Lists(zones[z], name)
  {
    var rs := zones[z].resources;
    if name in node.resources {
      var i: nat :| IsLastResource(rs, name, node.resources[name], i);
      assert rs[i].name == name;
      forall j: nat, amount: nat | IsLastResource(rs, name, amount, j) ensures amount == node.resources[name] {
        assert i == j;
      }
    }
  }

  lemma OffersIff(zones: seq<Zone>, ps: seq<nat>, guaranteed: bool, name: string, qty: nat, z: nat)
    requires ProperIds(zones) && ArePositions(zones, ps) && |NodeList(zones)| == |ps|
    requires forall k :: 0 <= k < |ps| ==> Describes(zones, ps[k], NodeList(zones)[k])
    requires z < |zones| && IsNuma(zones[z])
    ensures Offers(NodeList(zones), guaranteed, name, qty, zones[z].id.value) <==>
            ZoneGives(zones[z], guaranteed, name, qty)
  {
    var nodes := NodeList(zones);
    assert z in ps;
    var k :| 0 <= k < |ps| && ps[k] == z;
    NodeGivesIff(zones, z, nodes[k], guaranteed, name, qty);
    forall i | 0 <= i < |nodes| && nodes[i].id == zones[z].id.value ensures i == k {
      assert ps[i] in ps && ps[k] in ps && IsNuma(zones[ps[i]]);
    }
  }

  lemma OnSomeNodeIff(zones: seq<Zone>, ps: seq<nat>, name: string)
    requires ProperIds(zones) && ArePositions(zones, ps) && |NodeList(zones)| == |ps|
    requires forall k :: 0 <= k < |ps| ==> Describes(zones, ps[k], NodeList(zones)[k])
    ensures OnSomeNode(NodeList(zones), name) <==>
            exists z :: 0 <= z < |zones| && IsNuma(zones[z]) && Lists(zones[z], name)
  {
    var nodes := NodeList(zones);
    if OnSomeNode(nodes, name) {
      var i :| 0 <= i < |nodes| && name in nodes[i].resources;
      NodeGivesIff(zones, ps[i], nodes[i], true, name, 0);
      assert ps[i] in ps && IsNuma(zones[ps[i]]);
    }
    if z :| 0 <= z < |zones| && IsNuma(zones[z]) && Lists(zones[z], name) {
      assert z in ps;
      var k :| 0 <= k < |ps| && ps[k] == z;
      NodeGivesIff(zones, z, nodes[k], true, name, 0);
    }
  }

  /** With proper ids, a pod is accepted exactly when the node lists all it asks for and either
      nothing of it concerns the NUMA zones, or one zone has enough of everything. */
  lemma PodAcceptedByZone(zones: seq<Zone>, pod: TopologyPod, guaranteed: bool, allocatable: set<string>)
    requires ProperIds(zones)
    ensures var request := Effective(pod);
            PodAccepted(zones, pod, guaranteed, allocatable) <==>
              && (forall name :: name in request && request[name] > 0 ==> name in allocatable)
              && ((forall name :: name in request ==> Unbound(zones, name, request[name])) ||
                  exists z :: 0 <= z < |zones| && IsNuma(zones[z]) && ZoneSuits(zones, zones[z], guaranteed, request))
  {
    var request, nodes := Effective(pod), NodeList(zones);
    var ps := NodeListByIndex(zones);
    if id: nat :| FitsOn(nodes, guaranteed, request, id) {
      FittingIdIsZone(zones, ps, guaranteed, request, id);
    }
    if forall name :: name in request ==> Unbound(zones, name, request[name]) {
      UnboundFits(zones, ps, guaranteed, request);
    }
    if z :| 0 <= z < |zones| && IsNuma(zones[z]) && ZoneSuits(zones, zones[z], guaranteed, request) {
      SuitingZoneFits(zones, ps, guaranteed, request, z);
    }
  }

  lemma UnboundFits(zones: seq<Zone>, ps: seq<nat>, guaranteed: bool, request: ResourceList)
    requires ProperIds(zones) && ArePositions(zones, ps) && |NodeList(zones)| == |ps|
    requires forall k :: 0 <= k < |ps| ==> Describes(zones, ps[k], NodeList(zones)[k])
    requires forall name :: name in request ==> Unbound(zones, name, request[name])
    ensures FitsOn(NodeList(zones), guaranteed, request, 0)
  {
    forall name | name in request ensures Allows(NodeList(zones), guaranteed, name, request[name], 0) {
      OnSomeNodeIff(zones, ps, name);
    }
  }

  lemma SuitingZoneFits(zones: seq<Zone>, ps: seq<nat>, guaranteed: bool, request: ResourceList, z: nat)
    requires ProperIds(zones) && ArePositions(zones, ps) && |NodeList(zones)| == |ps|
    requires forall k :: 0 <= k < |ps| ==> Describes(zones, ps[k], NodeList(zones)[k])
    requires z < |zones| && IsNuma(zones[z]) && ZoneSuits(zones, zones[z], guaranteed, request)
    ensures FitsOn(NodeList(zones), guaranteed, request, zones[z].id.value)
  {
    forall name | name in request ensures Allows(NodeList(zones), guaranteed, name, request[name], zones[z].id.value) {
      OnSomeNodeIff(zones, ps, name);
      OffersIff(zones, ps, guaranteed, name, request[name], z);
    }
  }

  lemma FittingIdIsZone(zones: seq<Zone>, ps: seq<nat>, guaranteed: bool, request: ResourceList, id: nat)
    requires ProperIds(zones) && ArePositions(zones, ps) && |NodeList(zones)| == |ps|
    requires forall k :: 0 <= k < |ps| ==> Describes(zones, ps[k], NodeList(zones)[k])
    requires FitsOn(NodeList(zones), guaranteed, request, id)
    ensures (forall name :: name in request ==> Unbound(zones, name, request[name])) ||
            exists z :: 0 <= z < |zones| && IsNuma(zones[z]) && ZoneSuits(zones, zones[z], guaranteed, request)
  {
    var nodes := NodeList(zones);
    forall name { OnSomeNodeIff(zones, ps, name); }
    if name :| name in request && !Unbound(zones, name, request[name]) {
      assert Allows(nodes, guaranteed, name, request[name], id);
      var i :| 0 <= i < |nodes| && nodes[i].id == id && name in nodes[i].resources &&
               IsSuitable(guaranteed, name, request[name], nodes[i].resources[name]);
      var z := ps[i];
      assert z in ps && IsNuma(zones[z]);
      forall n | n in request ensures Unbound(zones, n, request[n]) || ZoneGives(zones[z], guaranteed, n, request[n]) {
        assert Allows(nodes, guaranteed, n, request[n], id);
        OffersIff(zones, ps, guaranteed, n, request[n], z);
      }
      assert ZoneSuits(zones, zones[z], guaranteed, request);
    }
  }

  /** The entry of this zone that counts for the resource shows at least this much after real use. */
  ghost predicate ReallyHas(zones: seq<Zone>, assumed: Assumed, use: (string, nat, string) -> nat, z: nat, name: string,
                            qty: nat)
    requires z < |zones|
  {
    exists i: nat, amount: nat ::
      IsLastResource(zones[z].resources, name, amount, i) && amount - RealUse(assumed, use, z, name) >= qty
  }

  /** No false positives in numbers: unless nothing of the pod concerns the NUMA zones, one zone
      has, after what the assumed pods really use of it, at least what the pod asks of every
      resource that is checked. */
  lemma AcceptedPodsReallyFit(zones: seq<Zone>, assumed: Assumed, use: (string, nat, string) -> nat,
                              pod: TopologyPod, guaranteed: bool, allocatable: set<string>)
    requires ProperIds(zones) && RealUsage(assumed, use)
    requires PodAccepted(View(zones, assumed), pod, guaranteed, allocatable)
    ensures var request := Effective(pod);
            || (forall name :: name in request ==> Unbound(zones, name, request[name]))
            || exists z :: 0 <= z < |zones| && IsNuma(zones[z]) &&
                 forall name :: name in request && !Unbound(zones, name, request[name]) && Checked(guaranteed, name) ==>
                   ReallyHas(zones, assumed, use, z, name, request[name])
  {
    var request, truth := Effective(pod), Truth(zones, assumed, use);
    NoFalsePositives(zones, assumed, use, pod, guaranteed, allocatable);
    TruthAmounts(zones, assumed, use);
    TruthKeepsZones(zones, assumed, use);
    PodAcceptedByZone(truth, pod, guaranteed, allocatable);
    if z :| 0 <= z < |truth| && IsNuma(truth[z]) && ZoneSuits(truth, truth[z], guaranteed, request) {
      forall name | name in request && !Unbound(zones, name, request[name]) && Checked(guaranteed, name)
        ensures ReallyHas(zones, assumed, use, z, name, request[name])
      {
        TrulyGives(zones, assumed, use, z, guaranteed, name, request[name]);
      }
    }
  }

  lemma TruthKeepsZones(zones: seq<Zone>, assumed: Assumed, use: (string, nat, string) -> nat)
    requires ProperIds(zones)
    ensures ProperIds(Truth(zones, assumed, use))
    ensures forall name, qty: nat :: Unbound(Truth(zones, assumed, use), name, qty) <==> Unbound(zones, name, qty)
  {
    var truth := Truth(zones, assumed, use);
    TruthAmounts(zones, assumed, use);
    assert forall z :: 0 <= z < |zones| ==> IsNuma(truth[z]) == IsNuma(zones[z]);
    forall z, name | 0 <= z < |zones| ensures Lists(truth[z], name) <==> Lists(zones[z], name) {
      assert forall i :: 0 <= i < |zones[z].resources| ==> truth[z].resources[i].name == zones[z].resources[i].name;
      if Lists(truth[z], name) {
        var i :| 0 <= i < |truth[z].resources| && truth[z].resources[i].name == name;
        assert zones[z].resources[i].name == name;
      }
      if Lists(zones[z], name) {
        var i :| 0 <= i < |zones[z].resources| && zones[z].resources[i].name == name;
        assert truth[z].resources[i].name == name;
      }
    }
  }

  lemma TrulyGives(zones: seq<Zone>, assumed: Assumed, use: (string, nat, string) -> nat, z: nat, guaranteed: bool,
                   name: string, qty: nat)
    requires z < |zones| && z < |Truth(zones, assumed, use)| && qty > 0 && Checked(guaranteed, name)
    requires ZoneGives(Truth(zones, assumed, use)[z], guaranteed, name, qty)
    ensures ReallyHas(zones, assumed, use, z, name, qty)
  {
    var truth := Truth(zones, assumed, use);
    TruthAmounts(zones, assumed, use);
    var i: nat, amount: nat :| IsLastResource(truth[z].resources, name, amount, i) && amount >= qty;
    assert forall j :: 0 <= j < |zones[z].resources| ==> truth[z].resources[j].name == zones[z].resources[j].name;
    assert IsLastResource(zones[z].resources, name, zones[z].resources[i].available, i);
  }

  /** The same over any run of the cache: what the history says is reserved on the node may
      really sit anywhere, and still an accepted pod fits. */
  lemma NoFalsePositivesInAnyRun(reports: map<string, seq<Zone>>, h: seq<Step>, node: string, assumed: Assumed,
                                 zones: seq<Zone>, use: (string, nat, string) -> nat, pod: TopologyPod,
                                 guaranteed: bool, allocatable: set<string>)
    requires forall key, req :: key in assumed && assumed[key] == req <==> Standing(h, node, key, req)
    requires Known(reports, h, node) ==> LastReport(reports, h, node, zones)
    requires RealUsage(assumed, use)
    requires Served(After(reports, h), node).Some?
    requires PodAccepted(Served(After(reports, h), node).value, pod, guaranteed, allocatable)
    ensures PodAccepted(Truth(zones, assumed, use), pod, guaranteed, allocatable)
  {
    ServedViewIsPessimistic(reports, h, node, assumed, zones);
    NoFalsePositives(zones, assumed, use, pod, guaranteed, allocatable);
  }

  // ---- Container scope ----

  /** What a container takes of a resource on the node it is placed on. */
  function Counted(guaranteed: bool, request: ResourceList, name: string): nat
  {
    if !guaranteed && IsAffine(name) then 0 else Quantity(request, name)
  }

  ghost predicate Overdraws(nodes: seq<NUMANode>, id: nat, guaranteed: bool, request: ResourceList)
  {
    exists i, name :: 0 <= i < |nodes| && nodes[i].id == id && name in nodes[i].resources &&
                      Counted(guaranteed, request, name) > nodes[i].resources[name]
  }

  ghost predicate DistinctIds(nodes: seq<NUMANode>)
  {
    forall i, j :: 0 <= i < j < |nodes| ==> nodes[i].id != nodes[j].id
  }

  /** The list after placing a request on `id`: that node gave up what counts, the others nothing. */
  ghost predicate Placed(before: seq<NUMANode>, after: seq<NUMANode>, id: nat, guaranteed: bool, request: ResourceList)
  {
    && |after| == |before|
    && forall i :: 0 <= i < |before| ==> PlacedAt(before[i], after[i], id, guaranteed, request)
  }

  ghost predicate PlacedAt(b: NUMANode, a: NUMANode, id: nat, guaranteed: bool, request: ResourceList)
  {
    && a.id == b.id && a.costs == b.costs && a.resources.Keys == b.resources.Keys
    && forall n :: n in b.resources ==>
         a.resources[n] + (if b.id == id then Counted(guaranteed, request, n) else 0) == b.resources[n]
  }

  /** Take a request out of one node's resources; fails on the first overdraft. */
  method SubtractFromNode(node: NUMANode, guaranteed: bool, request: ResourceList) returns (ok: bool, out: NUMANode)
    ensures ok <==> forall n :: n in node.resources ==> Counted(guaranteed, request, n) <= node.resources[n]
    ensures ok ==> PlacedAt(node, out, node.id, guaranteed, request)
  {
    out, ok := node, true;
    var names := request.Keys;
    while names != {}
      invariant names <= request.Keys && ok
      invariant out.id == node.id && out.costs == node.costs && out.resources.Keys == node.resources.Keys
      invariant forall n :: n in node.resources ==>
                  out.resources[n] + (if n in request.Keys - names then Counted(guaranteed, request, n) else 0) ==
                    node.resources[n]
      decreases names
    {
      var name :| name in names;
      names := names - {name};
      if (!guaranteed && IsAffine(name)) || request[name] == 0 || name !in out.resources { continue; }
      if out.resources[name] < request[name] {
        return false, out;
      }
      out := out.(resources := out.resources[name := out.resources[name] - request[name]]);
    }
  }

  /** subtractResourcesFromNUMANodeList, in place. */
  method SubtractResourcesFromNUMANodeList(nodes: array<NUMANode>, id: nat, guaranteed: bool, request: ResourceList)
      returns (ok: bool)
    modifies nodes
    ensures ok <==> !Overdraws(old(nodes[..]), id, guaranteed, request)
    ensures ok ==> Placed(old(nodes[..]), nodes[..], id, guaranteed, request)
  {
    ok := true;
    for k := 0 to nodes.Length
      invariant ok
      invariant forall i :: 0 <= i < k ==> PlacedAt(old(nodes[i]), nodes[i], id, guaranteed, request)
      invariant forall i :: k <= i < nodes.Length ==> nodes[i] == old(nodes[i])
    {
      if nodes[k].id == id {
        var out;
        ok, out := SubtractFromNode(nodes[k], guaranteed, request);
        if !ok {
          ghost var n :| n in nodes[k].resources && Counted(guaranteed, request, n) > nodes[k].resources[n];
          assert old(nodes[..])[k] == nodes[k];
          return;
        }
        nodes[k] := out;
      }
    }
    forall i, n | 0 <= i < nodes.Length && old(nodes[i]).id == id && n in old(nodes[i]).resources
      ensures Counted(guaranteed, request, n) <= old(nodes[i]).resources[n]
    {
      assert PlacedAt(old(nodes[i]), nodes[i], id, guaranteed, request);
    }
  }

  /** With distinct ids, a node that fits a request is never overdrawn by it. */
  lemma FittingNeverOverdraws(nodes: seq<NUMANode>, id: nat, guaranteed: bool, request: ResourceList)
    requires DistinctIds(nodes) && FitsOn(nodes, guaranteed, request, id)
    ensures !Overdraws(nodes, id, guaranteed, request)
  {
    forall i, name | 0 <= i < |nodes| && nodes[i].id == id && name in nodes[i].resources
      ensures Counted(guaranteed, request, name) <= nodes[i].resources[name]
    {
      if name in request {
        assert Allows(nodes, guaranteed, name, request[name], id);
        if request[name] > 0 {
          assert Offers(nodes, guaranteed, name, request[name], id);
          var j :| 0 <= j < |nodes| && nodes[j].id == id && name in nodes[j].resources &&
                   IsSuitable(guaranteed, name, request[name], nodes[j].resources[name]);
          assert i == j;
        }
      }
    }
  }

  /** What the containers placed on `id` take of a resource together. */
  ghost function Load(guaranteed: bool, requests: seq<ResourceList>, choices: seq<nat>, id: nat, name: string): nat
    requires |choices| == |requests|
  {
    if requests == [] then 0
    else
      var n := |requests| - 1;
      Load(guaranteed, requests[..n], choices[..n], id, name) +
      if choices[n] == id then Counted(guaranteed, requests[n], name) else 0
  }

  ghost function PlacedOn(choices: seq<nat>, id: nat): set<nat> { set k: nat | k < |choices| && choices[k] == id }

  ghost function AskedAt(requests: seq<ResourceList>, name: string): nat -> int
  {
    (k: nat) => if k < |requests| && name in requests[k] then requests[k][name] else 0
  }

  /** Of a resource that is checked, the load is the sum of the requests of the containers placed there. */
  lemma {:induction false} LoadIsSum(guaranteed: bool, requests: seq<ResourceList>, choices: seq<nat>, id: nat,
                                     name: string)
    requires |choices| == |requests| && Checked(guaranteed, name)
    ensures Load(guaranteed, requests, choices, id, name) == Sum(PlacedOn(choices, id), AskedAt(requests, name))
  {
    if requests == [] {
      assert PlacedOn(choices, id) == {};
    } else {
      var n: nat := |requests| - 1;
      var few := PlacedOn(choices[..n], id);
      LoadIsSum(guaranteed, requests[..n], choices[..n], id, name);
      SumSame(few, AskedAt(requests[..n], name), AskedAt(requests, name));
      if choices[n] == id {
        assert PlacedOn(choices, id) == few + {n};
        SumInsert(few, AskedAt(requests, name), n);
      } else {
        assert PlacedOn(choices, id) == few;
      }
    }
  }

  /** The choices account exactly for what disappeared from every node. */
  ghost predicate Accounts(before: seq<NUMANode>, after: seq<NUMANode>, guaranteed: bool, requests: seq<ResourceList>,
                           choices: seq<nat>)
  {
    && |choices| == |requests| && |after| == |before|
    && forall i :: 0 <= i < |before| ==>
         && after[i].id == before[i].id && after[i].resources.Keys == before[i].resources.Keys
         && forall name :: name in before[i].resources ==>
              after[i].resources[name] + Load(guaranteed, requests, choices, before[i].id, name) ==
                before[i].resources[name]
  }

  lemma AccountsStep(before: seq<NUMANode>, mid: seq<NUMANode>, after: seq<NUMANode>, guaranteed: bool,
                     requests: seq<ResourceList>, choices: seq<nat>, request: ResourceList, id: nat)
    requires Accounts(before, mid, guaranteed, requests, choices)
    requires Placed(mid, after, id, guaranteed, request)
    ensures Accounts(before, after, guaranteed, requests + [request], choices + [id])
  {
    assert (requests + [request])[..|requests|] == requests && (choices + [id])[..|choices|] == choices;
    forall i | 0 <= i < |before|
      ensures after[i].id == before[i].id && after[i].resources.Keys == before[i].resources.Keys
      ensures forall name :: name in before[i].resources ==>
                after[i].resources[name] + Load(guaranteed, requests + [request], choices + [id], before[i].id, name) ==
                before[i].resources[name]
    {
      assert PlacedAt(mid[i], after[i], id, guaranteed, request);
    }
  }

  // ---- The greedy run over the containers ----

  /** The id that the query returns: the lowest one that fits. */
  ghost predicate IsLowest(nodes: seq<NUMANode>, guaranteed: bool, request: ResourceList, id: nat)
  {
    FitsOn(nodes, guaranteed, request, id) && forall j: nat :: j < id ==> !FitsOn(nodes, guaranteed, request, j)
  }

  /** One container is placed on the lowest id that fits it on the list as it stands. */
  ghost predicate IsStep(before: seq<NUMANode>, after: seq<NUMANode>, guaranteed: bool, allocatable: set<string>,
                         request: ResourceList, id: nat)
  {
    && ListedAll(allocatable, request) && IsLowest(before, guaranteed, request, id)
    && !Overdraws(before, id, guaranteed, request) && Placed(before, after, id, guaranteed, request)
  }

  /** The first containers placed one after the other: run[k] is the list that container k finds. */
  ghost predicate IsRun(nodes: seq<NUMANode>, run: seq<seq<NUMANode>>, choices: seq<nat>, guaranteed: bool,
                        allocatable: set<string>, requests: seq<ResourceList>)
  {
    && |choices| <= |requests| && |run| == |choices| + 1 && run[0] == nodes
    && forall k :: 0 <= k < |choices| ==> IsStep(run[k], run[k + 1], guaranteed, allocatable, requests[k], choices[k])
  }

  datatype Verdict = Accepted | Unschedulable | Inconsistent

  /** Where a run can end: after the last container, at one that fits nowhere, or at one whose
      lowest fitting id is overdrawn by it. */
  ghost predicate Ends(nodes: seq<NUMANode>, run: seq<seq<NUMANode>>, choices: seq<nat>, guaranteed: bool,
                       allocatable: set<string>, requests: seq<ResourceList>, verdict: Verdict)
  {
    && IsRun(nodes, run, choices, guaranteed, allocatable, requests)
    && var k := |choices|;
       match verdict
       case Accepted => k == |requests|
       case Unschedulable => k < |requests| && !Accepts(run[k], guaranteed, allocatable, requests[k])
       case Inconsistent =>
         k < |requests| && ListedAll(allocatable, requests[k]) &&
         exists id: nat :: IsLowest(run[k], guaranteed, requests[k], id) &&
           Overdraws(run[k], id, guaranteed, requests[k])
  }

  lemma PlacedIsUnique(before: seq<NUMANode>, a: seq<NUMANode>, b: seq<NUMANode>, id: nat, guaranteed: bool,
                       request: ResourceList)
    requires Placed(before, a, id, guaranteed, request) && Placed(before, b, id, guaranteed, request)
    ensures a == b
  {
    forall i | 0 <= i < |before| ensures a[i] == b[i] {
      assert PlacedAt(before[i], a[i], id, guaranteed, request) && PlacedAt(before[i], b[i], id, guaranteed, request);
      assert a[i].resources == b[i].resources;
    }
  }

  lemma {:induction false} RunsCoincide(nodes: seq<NUMANode>, run: seq<seq<NUMANode>>, choices: seq<nat>,
                                        run': seq<seq<NUMANode>>, choices': seq<nat>, guaranteed: bool,
                                        allocatable: set<string>, requests: seq<ResourceList>, k: nat)
    requires IsRun(nodes, run, choices, guaranteed, allocatable, requests) &&
             IsRun(nodes, run', choices', guaranteed, allocatable, requests)
    requires k <= |choices| && k <= |choices'|
    ensures run[k] == run'[k] && choices[..k] == choices'[..k]
  {
    if k > 0 {
      var j := k - 1;
      RunsCoincide(nodes, run, choices, run', choices', guaranteed, allocatable, requests, j);
      assert IsStep(run[j], run[j + 1], guaranteed, allocatable, requests[j], choices[j]);
      assert IsStep(run'[j], run'[j + 1], guaranteed, allocatable, requests[j], choices'[j]);
      assert choices[j] == choices'[j];
      PlacedIsUnique(run[j], run[k], run'[k], choices[j], guaranteed, requests[j]);
    }
  }

  lemma StepIsNoEnd(before: seq<NUMANode>, after: seq<NUMANode>, guaranteed: bool, allocatable: set<string>,
                    request: ResourceList, id: nat)
    requires IsStep(before, after, guaranteed, allocatable, request, id)
    ensures Accepts(before, guaranteed, allocatable, request)
    ensures forall j: nat :: IsLowest(before, guaranteed, request, j) ==> !Overdraws(before, j, guaranteed, request)
  {
  }

  /** A run that has ended goes on in no other. */
  lemma EndedRunsStop(nodes: seq<NUMANode>, run: seq<seq<NUMANode>>, choices: seq<nat>, run': seq<seq<NUMANode>>,
                      choices': seq<nat>, guaranteed: bool, allocatable: set<string>, requests: seq<ResourceList>,
                      verdict: Verdict)
    requires Ends(nodes, run, choices, guaranteed, allocatable, requests, verdict)
    requires IsRun(nodes, run', choices', guaranteed, allocatable, requests)
    ensures |choices'| <= |choices|
  {
    var k := |choices|;
    if k < |choices'| {
      StepIsNoEnd(run'[k], run'[k + 1], guaranteed, allocatable, requests[k], choices'[k]);
      RunsCoincide(nodes, run, choices, run', choices', guaranteed, allocatable, requests, k);
    }
  }

  /** The verdict and the choices are determined by the list: there is one way to end. */
  lemma EndingIsUnique(nodes: seq<NUMANode>, run: seq<seq<NUMANode>>, choices: seq<nat>, run': seq<seq<NUMANode>>,
                       choices': seq<nat>, guaranteed: bool, allocatable: set<string>, requests: seq<ResourceList>,
                       verdict: Verdict, verdict': Verdict)
    requires Ends(nodes, run, choices, guaranteed, allocatable, requests, verdict)
    requires Ends(nodes, run', choices', guaranteed, allocatable, requests, verdict')
    ensures verdict == verdict' && choices == choices'
  {
    EndedRunsStop(nodes, run, choices, run', choices', guaranteed, allocatable, requests, verdict);
    EndedRunsStop(nodes, run', choices', run, choices, guaranteed, allocatable, requests, verdict');
    var k := |choices|;
    RunsCoincide(nodes, run, choices, run', choices', guaranteed, allocatable, requests, k);
    assert choices[..k] == choices && choices'[..k] == choices';
  }

  lemma {:induction false} RunAccounts(nodes: seq<NUMANode>, run: seq<seq<NUMANode>>, choices: seq<nat>,
                                       guaranteed: bool, allocatable: set<string>, requests: seq<ResourceList>, k: nat)
    requires IsRun(nodes, run, choices, guaranteed, allocatable, requests) && k <= |choices|
    ensures Accounts(nodes, run[k], guaranteed, requests[..k], choices[..k])
  {
    if k > 0 {
      var j := k - 1;
      RunAccounts(nodes, run, choices, guaranteed, allocatable, requests, j);
      assert IsStep(run[j], run[j + 1], guaranteed, allocatable, requests[j], choices[j]);
      AccountsStep(nodes, run[j], run[k], guaranteed, requests[..j], choices[..j], requests[j], choices[j]);
      assert requests[..k] == requests[..j] + [requests[j]] && choices[..k] == choices[..j] + [choices[j]];
    }
  }

  /** A feasible alignment: every placed container fits the node chosen for it on the machine as
      it was, and on every NUMA node the containers placed there together need no more of any
      resource than it had. */
  lemma AlignmentIsFeasible(nodes: seq<NUMANode>, run: seq<seq<NUMANode>>, choices: seq<nat>, guaranteed: bool,
                            allocatable: set<string>, requests: seq<ResourceList>)
    requires IsRun(nodes, run, choices, guaranteed, allocatable, requests)
    ensures forall k :: 0 <= k < |choices| ==> FitsOn(nodes, guaranteed, requests[k], choices[k])
    ensures forall i, name :: 0 <= i < |nodes| && name in nodes[i].resources ==>
              Load(guaranteed, requests[..|choices|], choices, nodes[i].id, name) <= nodes[i].resources[name]
    ensures forall i, name :: 0 <= i < |nodes| && name in nodes[i].resources && Checked(guaranteed, name) ==>
              Sum(PlacedOn(choices, nodes[i].id), AskedAt(requests, name)) <= nodes[i].resources[name]
  {
    forall k | 0 <= k < |choices| ensures FitsOn(nodes, guaranteed, requests[k], choices[k]) {
      RunAccounts(nodes, run, choices, guaranteed, allocatable, requests, k);
      assert IsStep(run[k], run[k + 1], guaranteed, allocatable, requests[k], choices[k]);
      AccountedIsNoMore(nodes, run[k], guaranteed, requests[..k], choices[..k]);
      AcceptsIsMonotone(run[k], nodes, guaranteed, allocatable, requests[k]);
    }
    var n := |choices|;
    RunAccounts(nodes, run, choices, guaranteed, allocatable, requests, n);
    assert choices[..n] == choices;
    forall i, name | 0 <= i < |nodes| && name in nodes[i].resources && Checked(guaranteed, name)
      ensures Sum(PlacedOn(choices, nodes[i].id), AskedAt(requests, name)) <= nodes[i].resources[name]
    {
      LoadIsSum(guaranteed, requests[..n], choices, nodes[i].id, name);
      SumSame(PlacedOn(choices, nodes[i].id), AskedAt(requests[..n], name), AskedAt(requests, name));
    }
  }

  lemma AccountedIsNoMore(before: seq<NUMANode>, after: seq<NUMANode>, guaranteed: bool, requests: seq<ResourceList>,
                          choices: seq<nat>)
    requires Accounts(before, after, guaranteed, requests, choices)
    ensures NoMoreOnNodes(after, before)
  {
  }

  /** With distinct ids the accounting error is out of reach. */
  lemma DistinctIdsStayConsistent(nodes: seq<NUMANode>, run: seq<seq<NUMANode>>, choices: seq<nat>, guaranteed: bool,
                                  allocatable: set<string>, requests: seq<ResourceList>)
    requires Ends(nodes, run, choices, guaranteed, allocatable, requests, Inconsistent)
    ensures !DistinctIds(nodes)
  {
    var k := |choices|;
    RunAccounts(nodes, run, choices, guaranteed, allocatable, requests, k);
    var id: nat :| IsLowest(run[k], guaranteed, requests[k], id) && Overdraws(run[k], id, guaranteed, requests[k]);
    if DistinctIds(run[k]) { FittingNeverOverdraws(run[k], id, guaranteed, requests[k]); }
  }

  ghost predicate InitsFit(nodes: seq<NUMANode>, pod: TopologyPod, guaranteed: bool, allocatable: set<string>)
  {
    forall i :: 0 <= i < |pod.initContainers| ==> Accepts(nodes, guaranteed, allocatable, pod.initContainers[i])
  }

  /** The pod's app containers lead the greedy run to this end. */
  ghost predicate Leads(nodes: seq<NUMANode>, pod: TopologyPod, guaranteed: bool, allocatable: set<string>,
                        choices: seq<nat>, verdict: Verdict)
  {
    exists run :: Ends(nodes, run, choices, guaranteed, allocatable, pod.containers, verdict)
  }

  /** What the handler answers for a pod, by its init containers and by the end of the greedy run. */
  ghost predicate IsVerdict(nodes: seq<NUMANode>, pod: TopologyPod, guaranteed: bool, allocatable: set<string>,
                            verdict: Verdict)
  {
    if InitsFit(nodes, pod, guaranteed, allocatable)
    then exists choices :: Leads(nodes, pod, guaranteed, allocatable, choices, verdict)
    else verdict == Unschedulable
  }

  lemma VerdictIsUnique(nodes: seq<NUMANode>, pod: TopologyPod, guaranteed: bool, allocatable: set<string>, a: Verdict,
                        b: Verdict)
    requires IsVerdict(nodes, pod, guaranteed, allocatable, a) && IsVerdict(nodes, pod, guaranteed, allocatable, b)
    ensures a == b
  {
    if InitsFit(nodes, pod, guaranteed, allocatable) {
      var choices :| Leads(nodes, pod, guaranteed, allocatable, choices, a);
      var run :| Ends(nodes, run, choices, guaranteed, allocatable, pod.containers, a);
      var choices' :| Leads(nodes, pod, guaranteed, allocatable, choices', b);
      var run' :| Ends(nodes, run', choices', guaranteed, allocatable, pod.containers, b);
      EndingIsUnique(nodes, run, choices, run', choices', guaranteed, allocatable, pod.containers, a, b);
    }
  }

  /** With a repeated id the error is reached: the one container fits an entry of the lowest id
      and overdraws the other entry. */
  lemma RepeatedIdIsInconsistent(pod: TopologyPod)
    requires pod.initContainers == [] && pod.containers == [map["cpu" := 2]]
    ensures IsVerdict([NUMANode(0, map["cpu" := 4], map[]), NUMANode(0, map["cpu" := 1], map[])], pod, true, {"cpu"},
            Inconsistent)
  {
    var nodes := [NUMANode(0, map["cpu" := 4], map[]), NUMANode(0, map["cpu" := 1], map[])];
    var request := pod.containers[0];
    assert nodes[0].id == 0 && "cpu" in nodes[0].resources && IsSuitable(true, "cpu", 2, nodes[0].resources["cpu"]);
    assert Offers(nodes, true, "cpu", 2, 0);
    assert IsLowest(nodes, true, request, 0);
    assert nodes[1].id == 0 && "cpu" in nodes[1].resources && Counted(true, request, "cpu") > nodes[1].resources["cpu"];
    assert Overdraws(nodes, 0, true, request);
    assert Ends(nodes, [nodes], [], true, {"cpu"}, pod.containers, Inconsistent);
    assert Leads(nodes, pod, true, {"cpu"}, [], Inconsistent);
  }

  /** singleNUMAContainerLevelHandler, on the extracted node list, which it uses up. The verdict
      is the only possible one, and the run tells where it was reached. */
  method SingleNUMAContainerLevelHandler(nodes: array<NUMANode>, pod: TopologyPod, guaranteed: bool,
                                         allocatable: set<string>)
      returns (verdict: Verdict, choices: seq<nat>, ghost run: seq<seq<NUMANode>>)
    modifies nodes
    ensures IsVerdict(old(nodes[..]), pod, guaranteed, allocatable, verdict)
    ensures InitsFit(old(nodes[..]), pod, guaranteed, allocatable) ==>
              Ends(old(nodes[..]), run, choices, guaranteed, allocatable, pod.containers, verdict)
    ensures verdict == Accepted ==>
            InitsFit(old(nodes[..]), pod, guaranteed, allocatable) && nodes[..] == run[|choices|] &&
                                    Accounts(old(nodes[..]), nodes[..], guaranteed, pod.containers, choices)
    ensures verdict == Inconsistent ==> !DistinctIds(old(nodes[..]))
  {
    ghost var first := nodes[..];
    choices, run := [], [first];
    var id, aligned;
    for i := 0 to |pod.initContainers|
      invariant forall j :: 0 <= j < i ==> Accepts(first, guaranteed, allocatable, pod.initContainers[j])
      invariant nodes[..] == first
    {
      id, aligned := ResourcesAvailableInAnyNUMANodes(nodes[..], pod.initContainers[i], guaranteed, allocatable);
      if !aligned { return Unschedulable, choices, run; }
    }
    for k := 0 to |pod.containers|
      invariant |choices| == k && IsRun(first, run, choices, guaranteed, allocatable, pod.containers)
      invariant nodes[..] == run[k]
    {
      var request := pod.containers[k];
      id, aligned := ResourcesAvailableInAnyNUMANodes(nodes[..], request, guaranteed, allocatable);
      if !aligned {
        assert Ends(first, run, choices, guaranteed, allocatable, pod.containers, Unschedulable);
        assert Leads(first, pod, guaranteed, allocatable, choices, Unschedulable);
        return Unschedulable, choices, run;
      }
      ghost var mid := nodes[..];
      assert IsLowest(mid, guaranteed, request, id);
      var ok := SubtractResourcesFromNUMANodeList(nodes, id, guaranteed, request);
      if !ok {
        assert Ends(first, run, choices, guaranteed, allocatable, pod.containers, Inconsistent);
        assert Leads(first, pod, guaranteed, allocatable, choices, Inconsistent);
        DistinctIdsStayConsistent(first, run, choices, guaranteed, allocatable, pod.containers);
        return Inconsistent, choices, run;
      }
      assert IsStep(mid, nodes[..], guaranteed, allocatable, request, id);
      choices, run := choices + [id], run + [nodes[..]];
    }
    assert Ends(first, run, choices, guaranteed, allocatable, pod.containers, Accepted);
    assert Leads(first, pod, guaranteed, allocatable, choices, Accepted);
    RunAccounts(first, run, choices, guaranteed, allocatable, pod.containers, |choices|);
    assert pod.containers[..|choices|] == pod.containers && choices[..|choices|] == choices;
    verdict := Accepted;
  }
}
