/** NUMA nodes as the filter and score plugins extract them from a report, and the
    rules on which resources are bound to NUMA nodes. */
module NumaNodes {
  import opened Options
  import opened EffectiveRequest
  import opened Topology

  datatype NUMANode = NUMANode(id: nat, resources: ResourceList, costs: map<nat, int>)

  const MAX_NUMA_ID := 64
  const HIGHEST_NUMA_ID := 8

  /** All ids below n; the full bit mask is the ids below 64. */
  function BitsBelow(n: nat): (bits: set<nat>)
    ensures forall b: nat :: b in bits <==> b < n
  {
    if n == 0 then {} else BitsBelow(n - 1) + {n - 1}
  }

  predicate HasPrefix(s: string, prefix: string) { prefix <= s }

  predicate Contains(s: string, part: string)
  {
    exists i :: 0 <= i <= |s| && part <= s[i..]
  }

  /** Unprefixed names and names in the kubernetes.io domain are native. */
  predicate IsNative(name: string) { '/' !in name || Contains(name, "kubernetes.io/") }

  predicate IsHostLevel(name: string)
  {
    name == "ephemeral-storage" || name == "storage" || !IsNative(name)
  }

  predicate IsAffine(name: string)
  {
    name == "cpu" || name == "memory" || HasPrefix(name, "hugepages-")
  }

  /** Which resources are bound to NUMA nodes, by example and in general. */
  lemma ResourceKinds(name: string)
    ensures IsAffine("cpu") && IsAffine("memory") && IsAffine("hugepages-2Mi") && !IsAffine("example.com/gpu")
    ensures IsHostLevel("ephemeral-storage") && IsHostLevel("storage") && IsHostLevel("example.com/gpu")
    ensures !IsHostLevel("cpu") && !IsHostLevel("memory") && !IsHostLevel("hugepages-2Mi")
    ensures IsAffine(name) && '/' !in name ==> !IsHostLevel(name)
    ensures '/' in name && !IsHostLevel(name) ==> exists i :: 0 <= i <= |name| && "kubernetes.io/" <= name[i..]
  {
    assert "ephemeral-storage"[0] == 'e' && "storage"[0] == 's' && "cpu"[0] == 'c' && "memory"[0] == 'm';
    assert "hugepages-2Mi"[0] == 'h' && "hugepages-2Mi"[..10] == "hugepages-";
    assert "example.com/gpu"[11] == '/' && "example.com/gpu"[0] == 'e';
    NoKubernetes();
  }

  lemma NoKubernetes()
    ensures !Contains("example.com/gpu", "kubernetes.io/")
  {
    var name := "example.com/gpu";
    forall i | 0 <= i <= |name| ensures !("kubernetes.io/" <= name[i..]) {
      assert name[0] == 'e' && name[1] == 'x' && "kubernetes.io/"[0] == 'k';
      if i <= 1 { assert name[i..][0] == name[i] && name[i] != 'k'; }
    }
  }

  /** isResourceSetSuitable: only guaranteed pods compete for CPU, memory and huge pages. */
  predicate IsSuitable(guaranteed: bool, name: string, qty: nat, available: nat)
  {
    (!guaranteed && IsAffine(name)) || available >= qty
  }

  /** CPU, memory and huge pages are checked for guaranteed pods only. */
  predicate Checked(guaranteed: bool, name: string)
  {
    guaranteed || (name != "cpu" && name != "memory" && !("hugepages-" <= name))
  }

  /** extractResources: a later entry for the same resource wins. */
  function ResourcesOf(rs: seq<ZoneResource>): ResourceList
  {
    if rs == [] then map[] else ResourcesOf(rs[..|rs| - 1])[rs[|rs| - 1].name := rs[|rs| - 1].available]
  }

  /** Entry i gives this amount of the resource, and no later entry names it. */
  ghost predicate IsLastResource(rs: seq<ZoneResource>, n: string, qty: nat, i: nat)
  {
    i < |rs| && rs[i] == ZoneResource(n, qty) && forall j :: i < j < |rs| ==> rs[j].name != n
  }

  lemma {:induction false} ResourceIsLast(rs: seq<ZoneResource>, n: string) returns (i: nat)
    requires n in ResourcesOf(rs)
    ensures IsLastResource(rs, n, ResourcesOf(rs)[n], i)
  {
    i := |rs| - 1;
    if rs[i].name != n { i := ResourceIsLast(rs[..i], n); }
  }

  lemma {:induction false} ResourceIsListed(rs: seq<ZoneResource>, i: nat)
    requires i < |rs|
    ensures rs[i].name in ResourcesOf(rs)
  {
    if i < |rs| - 1 { ResourceIsListed(rs[..|rs| - 1], i); }
  }

  /** Every name listed is there, with the amount of its last entry. */
  lemma LastResourceWins(rs: seq<ZoneResource>)
    ensures forall i :: 0 <= i < |rs| ==> rs[i].name in ResourcesOf(rs)
    ensures forall n :: n in ResourcesOf(rs) ==> exists i: nat :: IsLastResource(rs, n, ResourcesOf(rs)[n], i)
  {
    forall i | 0 <= i < |rs| ensures rs[i].name in ResourcesOf(rs) { ResourceIsListed(rs, i); }
    forall n | n in ResourcesOf(rs) ensures exists i: nat :: IsLastResource(rs, n, ResourcesOf(rs)[n], i) {
      var i := ResourceIsLast(rs, n);
    }
  }

  /** extractCosts */
  function CostsOf(cs: seq<Cost>): map<nat, int>
  {
    if cs == [] then map[]
    else
      var c := cs[|cs| - 1];
      var earlier := CostsOf(cs[..|cs| - 1]);
      if c.id.None? || c.id.value > MAX_NUMA_ID then earlier else earlier[c.id.value := c.value]
  }

  /** The entry names an id that passes the guard. */
  predicate IsUsable(c: Cost) { c.id.Some? && c.id.value <= MAX_NUMA_ID }

  /** Entry i gives this distance to the id, and no later usable entry names it. */
  ghost predicate IsLastCost(cs: seq<Cost>, id: nat, value: int, i: nat)
  {
    i < |cs| && IsUsable(cs[i]) && cs[i] == Cost(Some(id), value) && forall j :: i < j < |cs| && IsUsable(cs[j]) ==>
      cs[j].id.value != id
  }

  lemma {:induction false} CostIsLast(cs: seq<Cost>, id: nat) returns (i: nat)
    requires id in CostsOf(cs)
    ensures IsLastCost(cs, id, CostsOf(cs)[id], i)
  {
    i := |cs| - 1;
    if !(IsUsable(cs[i]) && cs[i].id.value == id) { i := CostIsLast(cs[..i], id); }
  }

  lemma {:induction false} CostIsListed(cs: seq<Cost>, i: nat)
    requires i < |cs| && IsUsable(cs[i])
    ensures cs[i].id.value in CostsOf(cs)
  {
    if i < |cs| - 1 { CostIsListed(cs[..|cs| - 1], i); }
  }

  /** Every usable id listed is there, with the value of its last entry. */
  lemma LastCostWins(cs: seq<Cost>)
    ensures forall i :: 0 <= i < |cs| && IsUsable(cs[i]) ==> cs[i].id.value in CostsOf(cs)
    ensures forall id :: id in CostsOf(cs) ==> exists i: nat :: IsLastCost(cs, id, CostsOf(cs)[id], i)
  {
    forall i | 0 <= i < |cs| && IsUsable(cs[i]) ensures cs[i].id.value in CostsOf(cs) { CostIsListed(cs, i); }
    forall id | id in CostsOf(cs) ensures exists i: nat :: IsLastCost(cs, id, CostsOf(cs)[id], i) {
      var i := CostIsLast(cs, id);
    }
  }

  /** The zone describes a NUMA node: its type says so and its name gives an id that passes the guard. */
  predicate IsNumaZone(z: Zone) { z.kind == "Node" && z.id.Some? && z.id.value <= MAX_NUMA_ID }

  /** Index of the last zone for this NUMA id, which is where the costs are taken from. */
  function LastZone(zones: seq<Zone>, id: nat): int
  {
    if zones == [] then -1
    else if IsNumaZone(zones[|zones| - 1]) && zones[|zones| - 1].id.value == id then |zones| - 1
    else LastZone(zones[..|zones| - 1], id)
  }

  function CostsFor(zones: seq<Zone>, id: nat): map<nat, int>
  {
    var i := LastZone(zones, id);
    if 0 <= i < |zones| then CostsOf(zones[i].costs) else map[]
  }

  /** The NUMA nodes among the first zones, in report order. */
  function NodesUpTo(all: seq<Zone>, zones: seq<Zone>): seq<NUMANode>
  {
    if zones == [] then []
    else
      var z := zones[|zones| - 1];
      var earlier := NodesUpTo(all, zones[..|zones| - 1]);
      if IsNumaZone(z) then earlier + [NUMANode(z.id.value, ResourcesOf(z.resources), CostsFor(all, z.id.value))]
      else earlier
  }

  function NodeList(zones: seq<Zone>): seq<NUMANode> { NodesUpTo(zones, zones) }

  /** Zone j is the last one that describes the NUMA node with this id. */
  ghost predicate IsLastZone(zones: seq<Zone>, id: nat, j: nat)
  {
    && j < |zones| && zones[j].kind == "Node" && zones[j].id == Some(id)
    && forall i :: j < i < |zones| && zones[i].kind == "Node" ==> zones[i].id != Some(id)
  }

  /** The node has the id of zone z, the last amount of each of its resources, and the last
      distances of the last zone of that id. */
  ghost predicate Describes(zones: seq<Zone>, z: nat, node: NUMANode)
    requires z < |zones|
  {
    && zones[z].kind == "Node" && zones[z].id == Some(node.id) && node.id <= 64
    && (forall i :: 0 <= i < |zones[z].resources| ==> zones[z].resources[i].name in node.resources)
    && (forall n :: n in node.resources ==>
          exists i: nat :: IsLastResource(zones[z].resources, n, node.resources[n], i))
    && exists j: nat :: IsLastZone(zones, node.id, j) && HasCosts(zones[j].costs, node.costs)
  }

  ghost predicate HasCosts(cs: seq<Cost>, costs: map<nat, int>)
  {
    && (forall i :: 0 <= i < |cs| && cs[i].id.Some? && cs[i].id.value <= 64 ==> cs[i].id.value in costs)
    && forall id :: id in costs ==> exists i: nat :: IsLastCost(cs, id, costs[id], i)
  }

  /** The positions, in order, of the zones that describe NUMA nodes. */
  ghost predicate ArePositions(zones: seq<Zone>, ps: seq<nat>)
  {
    && (forall k :: 0 <= k < |ps| ==> ps[k] < |zones|)
    && (forall k, l :: 0 <= k < l < |ps| ==> ps[k] < ps[l])
    && forall i :: 0 <= i < |zones| ==>
         (i in ps <==> zones[i].kind == "Node" && zones[i].id.Some? && zones[i].id.value <= 64)
  }

  lemma PositionsStep(zones: seq<Zone>, before: seq<nat>)
    requires zones != [] && ArePositions(zones[..|zones| - 1], before)
    ensures var n := |zones| - 1; ArePositions(zones, if IsNumaZone(zones[n]) then before + [n] else before)
  {
    var n := |zones| - 1;
    var ps := if IsNumaZone(zones[n]) then before + [n] else before;
    forall i | 0 <= i < |zones|
      ensures i in ps <==> zones[i].kind == "Node" && zones[i].id.Some? && zones[i].id.value <= 64
    {
      if i < n { assert zones[..n][i] == zones[i]; }
    }
  }

  ghost predicate Holds(all: seq<Zone>, z: Zone, node: NUMANode)
  {
    z.id == Some(node.id) && node.resources == ResourcesOf(z.resources) && node.costs == CostsFor(all, node.id)
  }

  lemma {:induction false} PositionsOfNodes(all: seq<Zone>, zones: seq<Zone>) returns (ps: seq<nat>)
    ensures ArePositions(zones, ps) && |NodesUpTo(all, zones)| == |ps|
    ensures forall k :: 0 <= k < |ps| ==> Holds(all, zones[ps[k]], NodesUpTo(all, zones)[k])
  {
    if zones == [] {
      ps := [];
    } else {
      var n := |zones| - 1;
      var before := PositionsOfNodes(all, zones[..n]);
      ps := if IsNumaZone(zones[n]) then before + [n] else before;
      PositionsStep(zones, before);
      forall k | 0 <= k < |ps| ensures Holds(all, zones[ps[k]], NodesUpTo(all, zones)[k]) {
        if k < |before| { assert Holds(all, zones[..n][before[k]], NodesUpTo(all, zones[..n])[k]); }
      }
    }
  }

  lemma {:induction false} LastZoneIsLast(zones: seq<Zone>, id: nat, i: nat)
    requires i < |zones| && zones[i].kind == "Node" && zones[i].id == Some(id) && id <= 64
    ensures LastZone(zones, id) >= 0 && IsLastZone(zones, id, LastZone(zones, id))
  {
    var n := |zones| - 1;
    if !(IsNumaZone(zones[n]) && zones[n].id.value == id) { LastZoneIsLast(zones[..n], id, i); }
  }

  /** What the list holds: one node per NUMA zone, in report order. */
  lemma NodeListByIndex(zones: seq<Zone>) returns (ps: seq<nat>)
    ensures ArePositions(zones, ps) && |NodeList(zones)| == |ps|
    ensures forall k :: 0 <= k < |ps| ==> Describes(zones, ps[k], NodeList(zones)[k])
  {
    ps := PositionsOfNodes(zones, zones);
    forall k | 0 <= k < |ps| ensures Describes(zones, ps[k], NodeList(zones)[k]) {
      var z := zones[ps[k]];
      assert ps[k] in ps && Holds(zones, z, NodeList(zones)[k]);
      LastResourceWins(z.resources);
      LastZoneIsLast(zones, z.id.value, ps[k]);
      var j: nat := LastZone(zones, z.id.value);
      LastCostWins(zones[j].costs);
      assert HasCosts(zones[j].costs, NodeList(zones)[k].costs);
    }
  }

  /** createNUMANodeList. The guard lets id 64 through to a table of 64 slots: `ok`
      is false when the run ends there. */
  method CreateNUMANodeList(zones: seq<Zone>) returns (ok: bool, nodes: seq<NUMANode>, ghost ps: seq<nat>)
    ensures ok <==> forall i :: 0 <= i < |zones| && zones[i].kind == "Node" ==> zones[i].id != Some(64)
    ensures ok ==> nodes == NodeList(zones)
    ensures ok ==> ArePositions(zones, ps) && |nodes| == |ps|
    ensures ok ==> forall k :: 0 <= k < |nodes| ==> Describes(zones, ps[k], nodes[k])
  {
    ps := [];
    var zoneOf := new int[MAX_NUMA_ID](_ => 0);
    var found: seq<(nat, ResourceList)> := [];
    nodes := [];
    for i := 0 to |zones|
      invariant forall j :: 0 <= j < i && IsNumaZone(zones[j]) ==> zones[j].id.value != MAX_NUMA_ID
      invariant forall id :: 0 <= id < MAX_NUMA_ID && LastZone(zones[..i], id) >= 0 ==>
                zoneOf[id] == LastZone(zones[..i], id)
      invariant |found| == |NodesUpTo(zones, zones[..i])|
      invariant forall k :: 0 <= k < |found| ==>
                  && found[k].0 < MAX_NUMA_ID && LastZone(zones[..i], found[k].0) >= 0
                  && NodesUpTo(zones, zones[..i])[k] == NUMANode(found[k].0, found[k].1, CostsFor(zones, found[k].0))
    {
      var z := zones[i];
      assert zones[..i + 1][..i] == zones[..i];
      if z.kind == "Node" && z.id.Some? && z.id.value <= MAX_NUMA_ID {
        if z.id.value == MAX_NUMA_ID { return false, [], ps; }
        zoneOf[z.id.value] := i;
        var resources := ExtractResources(z);
        found := found + [(z.id.value, resources)];
      }
    }
    assert zones[..|zones|] == zones;
    var lookup := zoneOf[..];
    for k := 0 to |found|
      invariant nodes == NodeList(zones)[..k]
    {
      var id := found[k].0;
      LastZoneInRange(zones, id);
      var costs := ExtractCosts(zones[lookup[id]].costs);
      nodes := nodes + [NUMANode(id, found[k].1, costs)];
    }
    ok := true;
    ps := NodeListByIndex(zones);
  }

  lemma {:induction false} LastZoneInRange(zones: seq<Zone>, id: nat)
    ensures -1 <= LastZone(zones, id) < |zones|
  {
    if zones != [] { LastZoneInRange(zones[..|zones| - 1], id); }
  }

  method ExtractResources(z: Zone) returns (res: ResourceList)
    ensures res == ResourcesOf(z.resources)
    ensures forall i :: 0 <= i < |z.resources| ==> z.resources[i].name in res
    ensures forall n :: n in res ==> exists i: nat :: IsLastResource(z.resources, n, res[n], i)
  {
    res := map[];
    for i := 0 to |z.resources|
      invariant res == ResourcesOf(z.resources[..i])
    {
      assert z.resources[..i + 1][..i] == z.resources[..i];
      res := res[z.resources[i].name := z.resources[i].available];
    }
    assert z.resources[..|z.resources|] == z.resources;
    LastResourceWins(z.resources);
  }

  method ExtractCosts(cs: seq<Cost>) returns (costs: map<nat, int>)
    ensures costs == CostsOf(cs)
    ensures forall i :: 0 <= i < |cs| && IsUsable(cs[i]) ==> cs[i].id.value in costs
    ensures forall id :: id in costs ==> exists i: nat :: IsLastCost(cs, id, costs[id], i)
  {
    costs := map[];
    for i := 0 to |cs|
      invariant costs == CostsOf(cs[..i])
    {
      assert cs[..i + 1][..i] == cs[..i];
      if cs[i].id.None? || cs[i].id.value > MAX_NUMA_ID { continue; }
      costs := costs[cs[i].id.value := cs[i].value];
    }
    assert cs[..|cs|] == cs;
    LastCostWins(cs);
  }

  /** The same nodes and resources, with no more available anywhere. */
  ghost predicate NoMoreOnNodes(a: seq<NUMANode>, b: seq<NUMANode>)
  {
    && |a| == |b|
    && forall i :: 0 <= i < |a| ==>
         && a[i].id == b[i].id && a[i].resources.Keys == b[i].resources.Keys
         && forall n :: n in a[i].resources ==> a[i].resources[n] <= b[i].resources[n]
  }

  lemma {:induction false} NoMoreResources(a: seq<ZoneResource>, b: seq<ZoneResource>)
    requires |a| == |b|
    requires forall i :: 0 <= i < |a| ==> a[i].name == b[i].name && a[i].available <= b[i].available
    ensures ResourcesOf(a).Keys == ResourcesOf(b).Keys
    ensures forall n :: n in ResourcesOf(a) ==> ResourcesOf(a)[n] <= ResourcesOf(b)[n]
  {
    if a != [] {
      var n := |a| - 1;
      NoMoreResources(a[..n], b[..n]);
    }
  }

  lemma {:induction false} NoMoreUpTo(all: seq<Zone>, all': seq<Zone>, a: seq<Zone>, b: seq<Zone>)
    requires NoMore(a, b)
    ensures NoMoreOnNodes(NodesUpTo(all, a), NodesUpTo(all', b))
  {
    if a != [] {
      var n := |a| - 1;
      NoMoreUpTo(all, all', a[..n], b[..n]);
      assert NoMoreIn(a[n], b[n]);
      NoMoreResources(a[n].resources, b[n].resources);
    }
  }
}
