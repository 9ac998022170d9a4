/** The over-reserve cache object. Reports enter and leave it as copies only. */
module OverReserve {
  import opened Options
  import opened EffectiveRequest
  import opened Topology
  import opened TopologyCache

  class NodeResourceTopology {
    const name: string
    var zones: seq<Zone>

    constructor (name: string, zones: seq<Zone>)
      ensures this.name == name && this.zones == zones
    {
      this.name := name;
      this.zones := zones;
    }

    constructor DeepCopy(original: NodeResourceTopology)
      ensures name == original.name && zones == original.zones
    {
      name := original.name;
      zones := original.zones;
    }
  }

  /** Take one pod's request out of one zone, resource by resource. */
  method SubtractFromZone(z: Zone, res: ResourceList) returns (out: Zone)
    ensures out == LessZone(z, TakenBy(res))
    ensures out.kind == z.kind && out.id == z.id && out.costs == z.costs && |out.resources| == |z.resources|
    ensures forall i :: 0 <= i < |z.resources| ==>
              var before, after := z.resources[i], out.resources[i];
              var qty := if before.name in res then res[before.name] else 0;
              && after.name == before.name
              && after.available == if before.available < qty then 0 else before.available - qty
  {
    var rs := z.resources;
    for ri := 0 to |rs|
      invariant |rs| == |z.resources|
      invariant forall i :: 0 <= i < ri ==> rs[i] == LessResource(z.resources[i], TakenBy(res))
      invariant forall i :: ri <= i < |rs| ==> rs[i] == z.resources[i]
    {
      if rs[ri].name in res {
        var qty := res[rs[ri].name];
        if rs[ri].available < qty {
          rs := rs[ri := rs[ri].(available := 0)];
        } else {
          rs := rs[ri := rs[ri].(available := rs[ri].available - qty)];
        }
      }
    }
    out := z.(resources := rs);
    assert out.resources == LessZone(z, TakenBy(res)).resources;
  }

  /** resourceStore.UpdateNRT: the pods come in map order, which does not matter. */
  method UpdateNRT(data: Assumed, nrt: NodeResourceTopology)
    modifies nrt
    ensures nrt.zones == View(old(nrt.zones), data)
    ensures |nrt.zones| == |old(nrt.zones)|
    ensures forall z, i :: 0 <= z < |nrt.zones| && 0 <= i < |old(nrt.zones)[z].resources| ==>
              && |nrt.zones[z].resources| == |old(nrt.zones)[z].resources|
              && var reported, shown := old(nrt.zones)[z].resources[i], nrt.zones[z].resources[i];
                 var asked := Demand(data, reported.name);
                 && shown.name == reported.name
                 && shown.available == if reported.available < asked then 0 else reported.available - asked
  {
    var keys := data.Keys;
    ghost var done: Assumed := map[];
    ViewNothing(nrt.zones);
    while keys != {}
      invariant keys <= data.Keys && done.Keys == data.Keys - keys
      invariant forall k :: k in done ==> done[k] == data[k]
      invariant nrt.zones == View(old(nrt.zones), done)
      decreases keys
    {
      var key :| key in keys;
      ghost var before := nrt.zones;
      for zi := 0 to |nrt.zones|
        invariant |nrt.zones| == |before|
        invariant forall i :: 0 <= i < zi ==> nrt.zones[i] == LessZone(before[i], TakenBy(data[key]))
        invariant forall i :: zi <= i < |before| ==> nrt.zones[i] == before[i]
      {
        var zone := SubtractFromZone(nrt.zones[zi], data[key]);
        nrt.zones := nrt.zones[zi := zone];
      }
      assert nrt.zones == Reduced(before, TakenBy(data[key]));
      ViewInsert(old(nrt.zones), done, key, data[key]);
      done := done[key := data[key]];
      keys := keys - {key};
    }
    assert done == data;
    ViewAmounts(old(nrt.zones), data);
  }

  class OverReserve {
    var generation: nat
    var nrts: map<string, NodeResourceTopology>
    var assumedResources: map<string, Assumed>
    var nodesMaybeOverreserved: map<string, int>
    var nodesWithForeignPods: map<string, int>
    var nodesWithAttrUpdate: map<string, int>

    ghost function Held(): map<string, seq<Zone>>
      reads this`nrts, nrts.Values
    {
      map n | n in nrts :: nrts[n].zones
    }

    ghost function State(): Cache
      reads this, nrts.Values
    {
      Cache(generation, Held(), assumedResources,
            nodesMaybeOverreserved, nodesWithForeignPods, nodesWithAttrUpdate)
    }

    /** The store starts with private copies of the listed reports. */
    constructor (listed: seq<NodeResourceTopology>)
      ensures State() == FlushAll(Start(map[]), Reports(listed))
      ensures fresh(nrts.Values)
    {
      nrts := map[];
      generation := 0;
      assumedResources := map[];
      nodesMaybeOverreserved, nodesWithForeignPods, nodesWithAttrUpdate := map[], map[], map[];
      new;
      StoreReports(listed);
    }

    /** Replace everything known about one node by a copy of its report. */
    method StoreReport(nrt: NodeResourceTopology)
      modifies this
      ensures State() == FlushOne(old(State()), Report(nrt.name, nrt.zones))
      ensures nrts.Keys == old(nrts.Keys) + {nrt.name} && fresh(nrts[nrt.name])
      ensures forall n :: n in nrts && n != nrt.name ==> nrts[n] == old(nrts)[n]
    {
      UpdateStore(nrt);
      DropMarks(nrt.name);
    }

    /** Forget the pods assumed on a node and all its marks. */
    method DropMarks(nodeName: string)
      modifies this`assumedResources, this`nodesMaybeOverreserved, this`nodesWithForeignPods, this`nodesWithAttrUpdate
      ensures assumedResources == old(assumedResources) - {nodeName}
      ensures nodesMaybeOverreserved == old(nodesMaybeOverreserved) - {nodeName}
      ensures nodesWithForeignPods == old(nodesWithForeignPods) - {nodeName}
      ensures nodesWithAttrUpdate == old(nodesWithAttrUpdate) - {nodeName}
    {
      assumedResources := assumedResources - {nodeName};
      nodesMaybeOverreserved := nodesMaybeOverreserved - {nodeName};
      nodesWithForeignPods := nodesWithForeignPods - {nodeName};
      nodesWithAttrUpdate := nodesWithAttrUpdate - {nodeName};
    }

    /** The report store's Update. */
    method UpdateStore(nrt: NodeResourceTopology)
      modifies this`nrts
      ensures Held() == old(Held())[nrt.name := nrt.zones]
      ensures nrts.Keys == old(nrts.Keys) + {nrt.name} && fresh(nrts[nrt.name])
      ensures forall n :: n in nrts && n != nrt.name ==> nrts[n] == old(nrts)[n]
    {
      var copy := new NodeResourceTopology.DeepCopy(nrt);
      nrts := nrts[nrt.name := copy];
    }

    /** Serves a new object or nothing; asking never changes the cache. */
    method GetCachedNRTCopy(nodeName: string) returns (nrt: NodeResourceTopology?, isFresh: bool, gen: nat)
      ensures isFresh == (nodeName !in State().foreign)
      ensures match Served(State(), nodeName)
              case None => nrt == null
              case Some(zones) => nrt != null && fresh(nrt) && nrt.name == nrts[nodeName].name && nrt.zones == zones &&
                                  gen == generation
      ensures State() == old(State())
    {
      gen := 0;
      if nodeName in nodesWithForeignPods { return null, false, gen; }
      if nodeName !in nrts { return null, true, gen; }
      nrt := new NodeResourceTopology.DeepCopy(nrts[nodeName]);
      isFresh, gen := true, generation;
      ViewNothing(nrt.zones);
      if nodeName in assumedResources {
        UpdateNRT(assumedResources[nodeName], nrt);
      }
    }

    method NodeMaybeOverReserved(nodeName: string)
      modifies this
      ensures State() == Next(old(State()), Discard(nodeName)) && nrts == old(nrts)
    {
      nodesMaybeOverreserved := Incremented(nodesMaybeOverreserved, nodeName);
    }

    method NodeHasForeignPods(nodeName: string)
      modifies this
      ensures State() == Next(old(State()), Foreign(nodeName)) && nrts == old(nrts)
    {
      if nodeName !in nrts { return; }
      nodesWithForeignPods := Incremented(nodesWithForeignPods, nodeName);
    }

    /** The watcher's reaction to a report whose topology manager attributes changed. */
    method AttributesUpdated(nodeName: string)
      modifies this
      ensures State() == Next(old(State()), AttributesChanged(nodeName)) && nrts == old(nrts)
    {
      if nodeName !in nrts { return; }
      nodesWithAttrUpdate := Incremented(nodesWithAttrUpdate, nodeName);
    }

    method ReserveNodeResources(nodeName: string, pod: TopologyPod)
      modifies this
      ensures State() == Next(old(State()), Reserve(nodeName, pod)) && nrts == old(nrts)
    {
      var request := GetPodEffectiveRequest(pod);
      AddPod(nodeName, Key(pod), request);
      nodesMaybeOverreserved := nodesMaybeOverreserved - {nodeName};
    }

    /** The resource store's AddPod, creating the store of a node on its first pod. */
    method AddPod(nodeName: string, key: string, request: ResourceList)
      modifies this`assumedResources
      ensures assumedResources == old(assumedResources)[nodeName := AssumedOn(old(State()), nodeName)[key := request]]
    {
      if nodeName !in assumedResources {
        assumedResources := assumedResources[nodeName := map[]];
      }
      assumedResources := assumedResources[nodeName := assumedResources[nodeName][key := request]];
    }

    method UnreserveNodeResources(nodeName: string, pod: TopologyPod)
      modifies this
      ensures State() == Next(old(State()), Unreserve(nodeName, pod)) && nrts == old(nrts)
    {
      if nodeName !in assumedResources { return; }
      assumedResources := assumedResources[nodeName := assumedResources[nodeName] - {Key(pod)}];
    }

    /** Dirty nodes are the ones discarded or seen with foreign pods; config changes are listed apart. */
    method GetDesyncedNodes() returns (gen: nat, dirty: set<string>, configChanged: set<string>)
      ensures gen == generation
      ensures dirty == State().foreign.Keys + State().discarded.Keys
      ensures configChanged == State().changed.Keys
    {
      gen := generation;
      var nodes := nodesWithForeignPods;
      var pending := nodesMaybeOverreserved.Keys;
      while pending != {}
        invariant pending <= nodesMaybeOverreserved.Keys
        invariant nodes.Keys == nodesWithForeignPods.Keys + (nodesMaybeOverreserved.Keys - pending)
        decreases pending
      {
        var n :| n in pending;
        nodes := Incremented(nodes, n);
        pending := pending - {n};
      }
      dirty, configChanged := nodes.Keys, nodesWithAttrUpdate.Keys;
    }

    method StoreReports(updates: seq<NodeResourceTopology>)
      modifies this
      ensures State() == FlushAll(old(State()), Reports(updates))
      ensures forall n :: n in nrts ==> (n in old(nrts) && nrts[n] == old(nrts)[n]) || fresh(nrts[n])
    {
      ghost var all, before := Reports(updates), State();
      for i := 0 to |updates|
        invariant forall n :: n in nrts ==> (n in old(nrts) && nrts[n] == old(nrts)[n]) || fresh(nrts[n])
        invariant all == Reports(updates)
        invariant State() == FlushAll(before, all[..i])
      {
        FlushAllStep(before, all, i);
        StoreReport(updates[i]);
      }
      assert all[..|updates|] == all;
    }

    /** FlushNodes: stores copies, so later changes to the given objects do not reach the cache. */
    method FlushNodes(updates: seq<NodeResourceTopology>)
      modifies this
      ensures State() == Next(old(State()), Flush(Reports(updates)))
      ensures forall n :: n in nrts ==> (n in old(nrts) && nrts[n] == old(nrts)[n]) || fresh(nrts[n])
    {
      ghost var all, before := Reports(updates), State();
      StoreReports(updates);
      if |updates| == 0 { return; }
      FlushKeepsGeneration(before, all);
      ghost var stored := Held();
      generation := generation + 1;
      assert Held() == stored;
    }
  }

  lemma FlushAllStep(c: Cache, rs: seq<Report>, i: nat)
    requires i < |rs|
    ensures FlushAll(c, rs[..i + 1]) == FlushOne(FlushAll(c, rs[..i]), rs[i])
  {
    assert rs[..i + 1][..i] == rs[..i];
  }

  ghost function Reports(updates: seq<NodeResourceTopology>): seq<Report>
    reads updates
  {
    seq(|updates|, i requires 0 <= i < |updates| reads updates => Report(updates[i].name, updates[i].zones))
  }
}
