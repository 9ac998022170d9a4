/** Node resource topology reports, and what is left of one after pods were
    charged to all of its zones at once. */
module Topology {
  import opened Options
  import opened EffectiveRequest
  import opened Sums

  datatype ZoneResource = ZoneResource(name: string, available: nat)

  /** Distance of a zone to the NUMA node that the entry's name denotes, if it denotes one. */
  datatype Cost = Cost(id: Option<nat>, value: int)

  /** `id` is the NUMA id that the zone's name denotes, if it denotes one. */
  datatype Zone = Zone(kind: string, id: Option<nat>, resources: seq<ZoneResource>, costs: seq<Cost>)

  /** Requests by pod key. */
  type Assumed = map<string, ResourceList>

  function Less(a: nat, b: nat): nat { if a < b then 0 else a - b }

  ghost function LessResource(r: ZoneResource, take: string -> nat): ZoneResource
  {
    ZoneResource(r.name, Less(r.available, take(r.name)))
  }

  ghost function LessZone(z: Zone, take: string -> nat): Zone
  {
    z.(resources := seq(|z.resources|, i requires 0 <= i < |z.resources| => LessResource(z.resources[i], take)))
  }

  /** Every zone reduced by what is taken of each resource, never below zero. */
  ghost function Reduced(zones: seq<Zone>, take: string -> nat): seq<Zone>
  {
    seq(|zones|, i requires 0 <= i < |zones| => LessZone(zones[i], take))
  }

  ghost function TakenBy(r: ResourceList): string -> nat { name => Quantity(r, name) }

  ghost function Part(assumed: Assumed, name: string): string -> int
  {
    k => if k in assumed then Quantity(assumed[k], name) else 0
  }

  /** What all assumed pods together ask of one resource. */
  ghost function Demand(assumed: Assumed, name: string): nat
  {
    SumNonNegative(assumed.Keys, Part(assumed, name));
    Sum(assumed.Keys, Part(assumed, name))
  }

  ghost function AllTaken(assumed: Assumed): string -> nat { name => Demand(assumed, name) }

  /** The pessimistic view: each assumed pod is charged to every zone. */
  ghost function View(zones: seq<Zone>, assumed: Assumed): seq<Zone>
  {
    Reduced(zones, AllTaken(assumed))
  }

  lemma ReducedTwice(zones: seq<Zone>, f: string -> nat, g: string -> nat, h: string -> nat)
    requires forall n :: h(n) == f(n) + g(n)
    ensures Reduced(Reduced(zones, f), g) == Reduced(zones, h)
  {
    forall i | 0 <= i < |zones| ensures LessZone(LessZone(zones[i], f), g) == LessZone(zones[i], h) {
      assert LessZone(LessZone(zones[i], f), g).resources == LessZone(zones[i], h).resources;
    }
  }

  /** Charging one more pod is one more reduction, whatever the order. */
  lemma ViewInsert(zones: seq<Zone>, assumed: Assumed, k: string, r: ResourceList)
    requires k !in assumed
    ensures View(zones, assumed[k := r]) == Reduced(View(zones, assumed), TakenBy(r))
  {
    var more := assumed[k := r];
    forall n ensures Demand(more, n) == Demand(assumed, n) + Quantity(r, n) { DemandIsSum(assumed, k, r, n); }
    ReducedTwice(zones, AllTaken(assumed), TakenBy(r), AllTaken(more));
  }

  /** The view in numbers: every entry of every zone shows what was reported less what all
      assumed pods ask of that resource, or zero. */
  lemma ViewAmounts(zones: seq<Zone>, assumed: Assumed)
    ensures |View(zones, assumed)| == |zones|
    ensures forall z :: 0 <= z < |zones| ==>
              && View(zones, assumed)[z].kind == zones[z].kind && View(zones, assumed)[z].id == zones[z].id
              && View(zones, assumed)[z].costs == zones[z].costs
              && |View(zones, assumed)[z].resources| == |zones[z].resources|
    ensures forall z, i :: 0 <= z < |zones| && 0 <= i < |zones[z].resources| ==>
              var reported, shown := zones[z].resources[i], View(zones, assumed)[z].resources[i];
              var asked := Demand(assumed, reported.name);
              && shown.name == reported.name
              && shown.available == if reported.available < asked then 0 else reported.available - asked
  {
  }

  /** What is asked is the sum over the assumed pods, told one pod at a time. */
  lemma DemandIsSum(assumed: Assumed, k: string, r: ResourceList, name: string)
    requires k !in assumed
    ensures Demand(map[], name) == 0
    ensures Demand(assumed[k := r], name) == Demand(assumed, name) + if name in r then r[name] else 0
  {
    var more := assumed[k := r];
    assert more.Keys == assumed.Keys + {k};
    SumInsert(assumed.Keys, Part(more, name), k);
    SumSame(assumed.Keys, Part(more, name), Part(assumed, name));
  }

  lemma ViewNothing(zones: seq<Zone>)
    ensures View(zones, map[]) == zones
  {
    forall i | 0 <= i < |zones| ensures LessZone(zones[i], AllTaken(map[])) == zones[i] {
      assert LessZone(zones[i], AllTaken(map[])).resources == zones[i].resources;
    }
  }

  /** What each pod really uses of each zone: at most its request. */
  ghost predicate RealUsage(assumed: Assumed, use: (string, nat, string) -> nat)
  {
    forall k, z, n :: use(k, z, n) <= if k in assumed then Quantity(assumed[k], n) else 0
  }

  ghost function UseAt(assumed: Assumed, use: (string, nat, string) -> nat, z: nat, n: string): string -> int
  {
    k => use(k, z, n)
  }

  ghost function RealUse(assumed: Assumed, use: (string, nat, string) -> nat, z: nat, n: string): nat
  {
    SumNonNegative(assumed.Keys, UseAt(assumed, use, z, n));
    Sum(assumed.Keys, UseAt(assumed, use, z, n))
  }

  ghost function UsedOf(assumed: Assumed, use: (string, nat, string) -> nat, z: nat): string -> nat
  {
    n => RealUse(assumed, use, z, n)
  }

  /** The zones as they really are once the pods run where they were placed. */
  ghost function Truth(zones: seq<Zone>, assumed: Assumed, use: (string, nat, string) -> nat): seq<Zone>
  {
    seq(|zones|, z requires 0 <= z < |zones| => LessZone(zones[z], UsedOf(assumed, use, z)))
  }

  /** The truth in numbers: what was reported less what the assumed pods use of that zone, or zero. */
  lemma TruthAmounts(zones: seq<Zone>, assumed: Assumed, use: (string, nat, string) -> nat)
    ensures |Truth(zones, assumed, use)| == |zones|
    ensures forall z :: 0 <= z < |zones| ==>
              var t := Truth(zones, assumed, use)[z];
              && t.kind == zones[z].kind && t.id == zones[z].id && t.costs == zones[z].costs
              && |t.resources| == |zones[z].resources|
    ensures forall z, i :: 0 <= z < |zones| && 0 <= i < |zones[z].resources| ==>
              var reported, actual := zones[z].resources[i], Truth(zones, assumed, use)[z].resources[i];
              var used := RealUse(assumed, use, z, reported.name);
              && actual.name == reported.name
              && actual.available == if reported.available < used then 0 else reported.available - used
  {
  }

  lemma RealUseIsSum(assumed: Assumed, k: string, r: ResourceList, use: (string, nat, string) -> nat, z: nat,
                     name: string)
    requires k !in assumed
    ensures RealUse(map[], use, z, name) == 0
    ensures RealUse(assumed[k := r], use, z, name) == RealUse(assumed, use, z, name) + use(k, z, name)
  {
    var more := assumed[k := r];
    assert more.Keys == assumed.Keys + {k};
    SumInsert(assumed.Keys, UseAt(more, use, z, name), k);
    SumSame(assumed.Keys, UseAt(more, use, z, name), UseAt(assumed, use, z, name));
  }

  /** Same zones and resources, with no more available. */
  ghost predicate NoMore(a: seq<Zone>, b: seq<Zone>)
  {
    && |a| == |b|
    && forall z :: 0 <= z < |a| ==> NoMoreIn(a[z], b[z])
  }

  ghost predicate NoMoreIn(a: Zone, b: Zone)
  {
    && a.kind == b.kind && a.id == b.id && a.costs == b.costs && |a.resources| == |b.resources|
    && forall i :: 0 <= i < |a.resources| ==>
         a.resources[i].name == b.resources[i].name && a.resources[i].available <= b.resources[i].available
  }

  /** Wherever the assumed pods really run, the view promises no more than there is. */
  lemma ViewIsLowerBound(zones: seq<Zone>, assumed: Assumed, use: (string, nat, string) -> nat)
    requires RealUsage(assumed, use)
    ensures NoMore(View(zones, assumed), Truth(zones, assumed, use))
  {
    forall z | 0 <= z < |zones| ensures NoMoreIn(View(zones, assumed)[z], Truth(zones, assumed, use)[z]) {
      forall i | 0 <= i < |zones[z].resources|
        ensures UsedOf(assumed, use, z)(zones[z].resources[i].name) <= Demand(assumed, zones[z].resources[i].name)
      {
        var n := zones[z].resources[i].name;
        SumMonotone(assumed.Keys, UseAt(assumed, use, z, n), Part(assumed, n));
      }
    }
  }
}
