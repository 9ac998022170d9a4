/** Placing the containers of a pod one after the other on their least NUMA nodes,
    using up resources in place, and the score that results. */
module NumaScore {
  import opened Options
  import opened EffectiveRequest
  import opened Topology
  import opened NumaNodes
  import opened LeastNuma
  import opened Sums

  ghost predicate DistinctBits(bits: seq<nat>)
  {
    forall i, j :: 0 <= i < j < |bits| ==> bits[i] != bits[j]
  }

  /** What is still missing of a request when its k-th node comes up. */
  ghost function Missing(nodes: seq<NUMANode>, bits: seq<nat>, name: string, qty: nat, k: nat): nat
    requires InRange(nodes, bits) && k <= |bits|
  {
    Less(qty, Total(ResourcesAt(nodes, bits[..k]), name))
  }

  /** Node bits[k] gives what it can of what is still missing. */
  ghost predicate Gave(before: seq<NUMANode>, after: NUMANode, bits: seq<nat>, name: string, qty: nat, k: nat)
    requires InRange(before, bits) && k < |bits|
  {
    name in before[bits[k]].resources ==>
      && name in after.resources
      && after.resources[name] == Less(before[bits[k]].resources[name], Missing(before, bits, name, qty, k))
  }

  ghost predicate SameBut(a: NUMANode, b: NUMANode, names: set<string>)
  {
    && a.id == b.id && a.costs == b.costs && a.resources.Keys == b.resources.Keys
    && forall n :: n in a.resources && n !in names ==> a.resources[n] == b.resources[n]
  }

  /** The request was taken greedily, node by node, and nothing else changed. */
  ghost predicate TakenFrom(before: seq<NUMANode>, after: seq<NUMANode>, bits: seq<nat>, request: ResourceList,
                            names: set<string>)
    requires InRange(before, bits) && names <= request.Keys
  {
    && |after| == |before|
    && (forall i :: 0 <= i < |before| ==> SameBut(before[i], after[i], names))
    && (forall i :: 0 <= i < |before| && i !in bits ==> before[i] == after[i])
    && forall k, n :: 0 <= k < |bits| && n in names ==> Gave(before, after[bits[k]], bits, n, request[n], k)
  }

  /** The leading bits that are positions of the list. */
  ghost function Reached(nodes: seq<NUMANode>, bits: seq<nat>): (r: seq<nat>)
    ensures InRange(nodes, r) && r <= bits && (|r| < |bits| ==> bits[|r|] >= |nodes|)
  {
    if bits == [] || bits[0] >= |nodes| then [] else [bits[0]] + Reached(nodes, bits[1..])
  }

  /** A bit past the end of the list comes up while something is still missing: the code stops
      there with an index out of range. */
  ghost predicate Crashes(nodes: seq<NUMANode>, bits: seq<nat>, request: ResourceList)
  {
    var r := Reached(nodes, bits);
    r != bits && exists name :: name in request && Missing(nodes, r, name, request[name], |r|) > 0
  }

  /** One resource of the request: the inner loop. It fails at a bit past the list. */
  method TakeResource(nodes: array<NUMANode>, name: string, qty: nat, bits: seq<nat>, ghost r: seq<nat>)
      returns (ok: bool)
    requires r <= bits && InRange(nodes[..], r) && DistinctBits(r) && (|r| < |bits| ==> bits[|r|] >= nodes.Length)
    modifies nodes
    ensures ok <==> r == bits || Missing(old(nodes[..]), r, name, qty, |r|) == 0
    ensures forall i :: 0 <= i < nodes.Length ==> SameBut(old(nodes[i]), nodes[i], {name})
    ensures forall i :: 0 <= i < nodes.Length && i !in r ==> nodes[i] == old(nodes[i])
    ensures forall k :: 0 <= k < |r| ==> Gave(old(nodes[..]), nodes[r[k]], r, name, qty, k)
  {
    ghost var before := nodes[..];
    var quantity := qty;
    ok := true;
    for k := 0 to |bits|
      invariant k <= |r| && ok && quantity == Missing(before, r, name, qty, k)
      invariant forall i :: 0 <= i < nodes.Length ==> SameBut(before[i], nodes[i], {name})
      invariant forall i :: 0 <= i < nodes.Length && i !in r[..k] ==> nodes[i] == before[i]
      invariant forall j :: 0 <= j < k ==> Gave(before, nodes[r[j]], r, name, qty, j)
    {
      var b := bits[k];
      if quantity == 0 {
        MissingStaysZero(before, r, name, qty, k);
        break;
      }
      if b >= nodes.Length { return false; }
      assert b == r[k] && b !in r[..k];
      MissingStep(before, r, name, qty, k);
      var res := nodes[b].resources;
      if name in res {
        var available := res[name];
        if quantity >= available {
          quantity := quantity - available;
          nodes[b] := nodes[b].(resources := res[name := 0]);
        } else {
          nodes[b] := nodes[b].(resources := res[name := available - quantity]);
          quantity := 0;
        }
      }
    }
  }

  lemma MissingStep(nodes: seq<NUMANode>, bits: seq<nat>, name: string, qty: nat, k: nat)
    requires InRange(nodes, bits) && k < |bits|
    ensures Missing(nodes, bits, name, qty, k + 1) ==
            Less(Missing(nodes, bits, name, qty, k), Quantity(nodes[bits[k]].resources, name))
  {
    assert ResourcesAt(nodes, bits[..k + 1]) == ResourcesAt(nodes, bits[..k]) + [nodes[bits[k]].resources];
    TotalAppend(ResourcesAt(nodes, bits[..k]), nodes[bits[k]].resources, name);
  }

  lemma {:induction false} MissingStaysZero(nodes: seq<NUMANode>, bits: seq<nat>, name: string, qty: nat, k: nat)
    requires InRange(nodes, bits) && k <= |bits| && Missing(nodes, bits, name, qty, k) == 0
    ensures forall j :: k <= j <= |bits| ==> Missing(nodes, bits, name, qty, j) == 0
    decreases |bits| - k
  {
    if k < |bits| {
      MissingStep(nodes, bits, name, qty, k);
      MissingStaysZero(nodes, bits, name, qty, k + 1);
    }
  }

  /** subtractFromNUMAs, in place; the resources come in map order, which does not matter. It
      fails exactly when a bit past the list is needed. */
  method SubtractFromNUMAs(request: ResourceList, nodes: array<NUMANode>, bits: seq<nat>) returns (ok: bool)
    requires DistinctBits(bits)
    modifies nodes
    ensures ok <==> !Crashes(old(nodes[..]), bits, request)
    ensures ok ==> TakenFrom(old(nodes[..]), nodes[..], Reached(old(nodes[..]), bits), request, request.Keys)
    ensures forall i :: 0 <= i < nodes.Length ==> nodes[i].id == old(nodes[i]).id
  {
    ghost var before := nodes[..];
    ghost var r := Reached(before, bits);
    ok := true;
    var names := request.Keys;
    while names != {}
      invariant names <= request.Keys && ok
      invariant TakenFrom(before, nodes[..], r, request, request.Keys - names)
      invariant r == bits || forall n :: n in request.Keys - names ==> Missing(before, r, n, request[n], |r|) == 0
      decreases names
    {
      var name :| name in names;
      ghost var mid := nodes[..];
      ghost var done := request.Keys - names;
      ok := TakeResource(nodes, name, request[name], bits, r);
      SameMissing(before, mid, r, request, done, name, |r|);
      TakenStep(before, mid, nodes[..], r, request, done, name);
      if !ok {
        assert forall i :: 0 <= i < |before| ==> SameBut(before[i], nodes[..][i], done + {name});
        return;
      }
      names := names - {name};
      assert request.Keys - names == done + {name};
    }
    assert request.Keys - names == request.Keys;
    assert forall i :: 0 <= i < |before| ==> SameBut(before[i], nodes[..][i], request.Keys);
  }

  /** What is missing of a resource does not depend on the resources taken before it. */
  lemma SameMissing(before: seq<NUMANode>, mid: seq<NUMANode>, bits: seq<nat>, request: ResourceList,
                    names: set<string>, name: string, k: nat)
    requires InRange(before, bits) && names <= request.Keys && name in request && name !in names && k <= |bits|
    requires TakenFrom(before, mid, bits, request, names)
    ensures Missing(mid, bits, name, request[name], k) == Missing(before, bits, name, request[name], k)
  {
    forall j | 0 <= j < |bits|
      ensures Quantity(mid[bits[j]].resources, name) == Quantity(before[bits[j]].resources, name)
    {
      assert SameBut(before[bits[j]], mid[bits[j]], names);
    }
    SameTotals(before, mid, bits[..k], name);
  }

  lemma TakenStep(before: seq<NUMANode>, mid: seq<NUMANode>, after: seq<NUMANode>, bits: seq<nat>,
                  request: ResourceList, names: set<string>, name: string)
    requires InRange(before, bits) && DistinctBits(bits) && names <= request.Keys && name in request && name !in names
    requires TakenFrom(before, mid, bits, request, names) && |after| == |mid|
    requires forall i :: 0 <= i < |mid| ==> SameBut(mid[i], after[i], {name})
    requires forall i :: 0 <= i < |mid| && i !in bits ==> after[i] == mid[i]
    requires forall k :: 0 <= k < |bits| ==> Gave(mid, after[bits[k]], bits, name, request[name], k)
    ensures TakenFrom(before, after, bits, request, names + {name})
  {
    forall i | 0 <= i < |before| ensures SameBut(before[i], after[i], names + {name}) {
      assert SameBut(before[i], mid[i], names) && SameBut(mid[i], after[i], {name});
    }
    forall k, n | 0 <= k < |bits| && n in names + {name} ensures Gave(before, after[bits[k]], bits, n, request[n], k) {
      assert SameBut(before[bits[k]], mid[bits[k]], names) && SameBut(mid[bits[k]], after[bits[k]], {name});
      if n == name {
        SameMissing(before, mid, bits, request, names, name, k);
        assert Gave(mid, after[bits[k]], bits, name, request[name], k);
      } else {
        assert Gave(before, mid[bits[k]], bits, n, request[n], k);
      }
    }
  }

  lemma {:induction false} SameTotals(a: seq<NUMANode>, b: seq<NUMANode>, bits: seq<nat>, name: string)
    requires |a| == |b| && InRange(a, bits)
    requires forall j :: 0 <= j < |bits| ==>
             Quantity(a[bits[j]].resources, name) == Quantity(b[bits[j]].resources, name)
    ensures Total(ResourcesAt(a, bits), name) == Total(ResourcesAt(b, bits), name)
  {
    if bits != [] {
      SameTotals(a, b, bits[1..], name);
      assert ResourcesAt(a, bits)[1..] == ResourcesAt(a, bits[1..]);
      assert ResourcesAt(b, bits)[1..] == ResourcesAt(b, bits[1..]);
    }
  }

  // ---- Conservation ----

  ghost function AvailableAt(nodes: seq<NUMANode>, name: string): nat -> int
  {
    (i: nat) => if i < |nodes| then Quantity(nodes[i].resources, name) else 0
  }

  ghost function Indices(nodes: seq<NUMANode>): set<nat> { BitsBelow(|nodes|) }

  /** All that is available of a resource on the machine. */
  ghost function Overall(nodes: seq<NUMANode>, name: string): int { Sum(Indices(nodes), AvailableAt(nodes, name)) }

  function Smaller(a: nat, b: nat): nat { if a < b then a else b }

  lemma {:induction false} PrefixDrop(before: seq<NUMANode>, after: seq<NUMANode>, bits: seq<nat>,
                                      request: ResourceList, name: string, k: nat)
    requires InRange(before, bits) && k <= |bits| && name in request &&
             TakenFrom(before, after, bits, request, request.Keys)
    ensures InRange(after, bits)
    ensures Total(ResourcesAt(after, bits[..k]), name) +
            Smaller(request[name], Total(ResourcesAt(before, bits[..k]), name)) ==
            Total(ResourcesAt(before, bits[..k]), name)
  {
    if k == 0 {
      assert bits[..0] == [];
    } else {
      var j := k - 1;
      PrefixDrop(before, after, bits, request, name, j);
      TotalGrows(before, bits, name, j);
      TotalGrows(after, bits, name, j);
      assert Gave(before, after[bits[j]], bits, name, request[name], j);
      assert SameBut(before[bits[j]], after[bits[j]], request.Keys);
    }
  }

  ghost function BitSet(bits: seq<nat>): set<nat> { set b | b in bits }

  lemma {:induction false} BitsTotal(nodes: seq<NUMANode>, bits: seq<nat>, name: string)
    requires InRange(nodes, bits) && DistinctBits(bits)
    ensures Total(ResourcesAt(nodes, bits), name) == Sum(BitSet(bits), AvailableAt(nodes, name))
  {
    if bits == [] {
      assert BitSet(bits) == {};
    } else {
      var k := |bits| - 1;
      BitsTotal(nodes, bits[..k], name);
      assert ResourcesAt(nodes, bits) == ResourcesAt(nodes, bits[..k]) + [nodes[bits[k]].resources];
      TotalAppend(ResourcesAt(nodes, bits[..k]), nodes[bits[k]].resources, name);
      assert BitSet(bits) == BitSet(bits[..k]) + {bits[k]};
      SumInsert(BitSet(bits[..k]), AvailableAt(nodes, name), bits[k]);
    }
  }

  /** A request is taken out once: the machine loses what was asked for, or all that the
      chosen nodes had if that is less, and no other resource loses anything. */
  lemma SubtractionConserves(before: seq<NUMANode>, after: seq<NUMANode>, bits: seq<nat>, request: ResourceList,
                             name: string)
    requires InRange(before, bits) && DistinctBits(bits) && TakenFrom(before, after, bits, request, request.Keys)
    ensures Overall(before, name) - Overall(after, name) ==
            if name in request then Smaller(request[name], Total(ResourcesAt(before, bits), name)) else 0
  {
    OverallLoss(before, after, bits, request, name);
    if name in request {
      PrefixDrop(before, after, bits, request, name, |bits|);
      assert bits[..|bits|] == bits;
      BitsTotal(before, bits, name);
      BitsTotal(after, bits, name);
    } else {
      var chosen := BitSet(bits);
      forall i | i in chosen ensures AvailableAt(before, name)(i) == AvailableAt(after, name)(i) {
        assert SameBut(before[i], after[i], request.Keys);
      }
      SumSame(chosen, AvailableAt(before, name), AvailableAt(after, name));
    }
  }

  /** Only the chosen nodes lose anything. */
  lemma OverallLoss(before: seq<NUMANode>, after: seq<NUMANode>, bits: seq<nat>, request: ResourceList, name: string)
    requires InRange(before, bits) && TakenFrom(before, after, bits, request, request.Keys)
    ensures Overall(before, name) - Overall(after, name) ==
            Sum(BitSet(bits), AvailableAt(before, name)) - Sum(BitSet(bits), AvailableAt(after, name))
  {
    var chosen := BitSet(bits);
    OverallSplits(before, chosen, name);
    OverallSplits(after, chosen, name);
    assert Indices(after) == Indices(before);
    SumSame(Indices(before) - chosen, AvailableAt(before, name), AvailableAt(after, name));
  }

  lemma OverallSplits(nodes: seq<NUMANode>, chosen: set<nat>, name: string)
    requires chosen <= Indices(nodes)
    ensures Overall(nodes, name) ==
            Sum(chosen, AvailableAt(nodes, name)) + Sum(Indices(nodes) - chosen, AvailableAt(nodes, name))
  {
    SumUnion(chosen, Indices(nodes) - chosen, AvailableAt(nodes, name));
    assert chosen + (Indices(nodes) - chosen) == Indices(nodes);
  }

  // ---- The container scope score ----

  ghost predicate NothingOnNodes(nodes: seq<NUMANode>, request: ResourceList)
  {
    forall name, i :: name in request && 0 <= i < |nodes| ==> name !in nodes[i].resources
  }

  method OnlyNonNUMAResources(nodes: seq<NUMANode>, request: ResourceList) returns (only: bool)
    ensures only <==> NothingOnNodes(nodes, request)
    ensures only <==> forall i :: 0 <= i < |nodes| ==> request.Keys !! nodes[i].resources.Keys
  {
    for i := 0 to |nodes|
      invariant forall name, j :: name in request && 0 <= j < i ==> name !in nodes[j].resources
    {
      if request.Keys * nodes[i].resources.Keys != {} {
        ghost var name :| name in request.Keys * nodes[i].resources.Keys;
        assert name in request && name in nodes[i].resources;
        return false;
      }
      forall name | name in request ensures name !in nodes[i].resources {
        assert name !in request.Keys * nodes[i].resources.Keys;
      }
    }
    return true;
  }

  ghost predicate Increasing(s: seq<nat>) { forall i, j :: 0 <= i < j < |s| ==> s[i] < s[j] }

  /** The bits of the mask of ids that was made for the chosen nodes, lowest first. */
  ghost predicate AreIds(nodes: seq<NUMANode>, c: seq<nat>, bits: seq<nat>)
    requires InRange(nodes, c)
  {
    Increasing(bits) && BitSet(bits) == set i | 0 <= i < |c| :: nodes[c[i]].id
  }

  /** GetBits */
  method SortedBits(mask: set<nat>) returns (bits: seq<nat>)
    requires forall b :: b in mask ==> b < MAX_NUMA_ID
    ensures Increasing(bits) && BitSet(bits) == mask
  {
    bits := [];
    for b := 0 to MAX_NUMA_ID
      invariant Increasing(bits) && BitSet(bits) == set x | x in mask && x < b
    {
      if b in mask {
        forall i | 0 <= i < |bits| ensures bits[i] < b { assert bits[i] in BitSet(bits); }
        assert BitSet(bits + [b]) == BitSet(bits) + {b};
        bits := bits + [b];
      }
    }
  }

  lemma NoBits(s: seq<nat>)
    ensures s == [] <==> BitSet(s) == {}
  {
    if s != [] { assert s[0] in BitSet(s); }
  }

  lemma {:induction false} SameIncreasing(a: seq<nat>, b: seq<nat>)
    requires Increasing(a) && Increasing(b) && BitSet(a) == BitSet(b)
    ensures a == b
  {
    NoBits(a);
    NoBits(b);
    if a != [] {
      var m, n := |a| - 1, |b| - 1;
      assert a[m] in BitSet(b) && b[n] in BitSet(a);
      assert a[m] == b[n];
      assert BitSet(a[..m]) == BitSet(a) - {a[m]} && BitSet(b[..n]) == BitSet(b) - {b[n]};
      SameIncreasing(a[..m], b[..n]);
    }
  }

  /** One run of the scoring loop: the node list to begin with and, for each container in
      turn, the nodes chosen for it (none when it was skipped), the ids of those nodes, which
      the code goes on to use as list positions, and the list after it. */
  datatype Run = Start(nodes: seq<NUMANode>) | Then(before: Run, chosen: seq<nat>, bits: seq<nat>, nodes: seq<NUMANode>)

  ghost predicate RunStep(before: seq<NUMANode>, after: seq<NUMANode>, guaranteed: bool, request: ResourceList,
                          c: seq<nat>, bits: seq<nat>)
  {
    if NothingOnNodes(before, request) then c == [] && bits == [] && after == before
    else
      && IsLeast(before, guaranteed, request, c) && AreIds(before, c, bits) && !Crashes(before, bits, request)
      && TakenFrom(before, after, Reached(before, bits), request, request.Keys)
  }

  ghost predicate IsRun(run: Run, guaranteed: bool, requests: seq<ResourceList>)
  {
    match run
    case Start(_) => requests == []
    case Then(before, c, bits, after) =>
      && requests != [] && IsRun(before, guaranteed, requests[..|requests| - 1])
      && RunStep(before.nodes, after, guaranteed, requests[|requests| - 1], c, bits)
  }

  ghost function First(run: Run): seq<NUMANode> { if run.Start? then run.nodes else First(run.before) }

  ghost function MostNodes(run: Run): nat
  {
    if run.Start? then 0 else Larger(MostNodes(run.before), |run.bits|)
  }

  /** Some container took this many nodes. */
  ghost predicate TookNodes(run: Run, n: nat) { run.Then? && (n == |run.bits| || TookNodes(run.before, n)) }

  /** The number that is graded is that of the container that took the most. */
  lemma {:induction false} MostNodesIsMaximum(run: Run)
    ensures forall n: nat :: TookNodes(run, n) ==> n <= MostNodes(run)
    ensures run.Then? ==> TookNodes(run, MostNodes(run))
    ensures run.Start? ==> MostNodes(run) == 0
  {
    if run.Then? { MostNodesIsMaximum(run.before); }
  }

  ghost predicate AllClosest(run: Run)
  {
    run.Then? ==>
      && AllClosest(run.before)
      && (run.chosen != [] && InRange(run.before.nodes, run.chosen) ==> IsClosest(run.before.nodes, run.chosen))
  }

  ghost function Grade(count: nat, close: bool): int
  {
    if count == 0 then MAX_NODE_SCORE else NormalizeScore(count, close)
  }

  /** The ids fit a bit mask. */
  ghost predicate IdsFit(nodes: seq<NUMANode>) { forall i :: 0 <= i < |nodes| ==> nodes[i].id < MAX_NUMA_ID }

  ghost predicate NothingFits(nodes: seq<NUMANode>, guaranteed: bool, request: ResourceList)
  {
    forall d | d != [] && IsSubset(nodes, d) && Fits(nodes, guaranteed, request, d) :: !Near(nodes, d)
  }

  /** The least nodes were found, and using up the list at their ids runs past its end. */
  ghost predicate PastTheList(nodes: seq<NUMANode>, guaranteed: bool, request: ResourceList, c: seq<nat>, ids: seq<nat>)
  {
    IsLeast(nodes, guaranteed, request, c) && AreIds(nodes, c, ids) && Crashes(nodes, ids, request)
  }

  datatype Placement = Placed | NoFit | OutOfRange

  /** One round of the loop: skip the container, or choose its nodes and use up the ones found
      at their ids, which fails where an id is past the end of the list. */
  method PlaceContainer(nodes: array<NUMANode>, guaranteed: bool, request: ResourceList)
      returns (placement: Placement, count: nat, isMin: bool, ghost c: seq<nat>, ghost ids: seq<nat>)
    requires IdsFit(nodes[..])
    modifies nodes
    ensures IdsFit(nodes[..])
    ensures placement == Placed ==> RunStep(old(nodes[..]), nodes[..], guaranteed, request, c, ids) && count == |ids|
    ensures placement == Placed ==>
            (isMin <==> (c != [] && InRange(old(nodes[..]), c) ==> IsClosest(old(nodes[..]), c)))
    ensures placement == NoFit ==>
              nodes[..] == old(nodes[..]) && !NothingOnNodes(nodes[..], request) &&
                NothingFits(nodes[..], guaranteed, request)
    ensures placement == OutOfRange ==>
              !NothingOnNodes(old(nodes[..]), request) && PastTheList(old(nodes[..]), guaranteed, request, c, ids)
  {
    c, ids, count, isMin, placement := [], [], 0, true, Placed;
    var only := OnlyNonNUMAResources(nodes[..], request);
    if only { return; }
    var mask;
    mask, isMin, c := NumaNodesRequired(nodes[..], guaranteed, request);
    if mask.None? { return NoFit, count, isMin, c, ids; }
    var bits := SortedBits(mask.value);
    ids := bits;
    count := |bits|;
    var ok := SubtractFromNUMAs(request, nodes, bits);
    if !ok { placement := OutOfRange; }
  }

  lemma RunGrows(run: Run, guaranteed: bool, requests: seq<ResourceList>, k: nat, c: seq<nat>, bits: seq<nat>,
                 after: seq<NUMANode>)
    requires k < |requests| && IsRun(run, guaranteed, requests[..k])
    requires RunStep(run.nodes, after, guaranteed, requests[k], c, bits)
    ensures IsRun(Then(run, c, bits, after), guaranteed, requests[..k + 1])
  {
    assert requests[..k + 1][..k] == requests[..k];
  }

  /** How the loop ends: all containers placed, or container `done` fits nowhere, or it runs past the list. */
  ghost predicate Finishes(run: Run, guaranteed: bool, requests: seq<ResourceList>, done: nat, placement: Placement)
  {
    && done <= |requests| && IsRun(run, guaranteed, requests[..done])
    && match placement
       case Placed => done == |requests|
       case NoFit =>
         && done < |requests| && !NothingOnNodes(run.nodes, requests[done])
         && NothingFits(run.nodes, guaranteed, requests[done])
       case OutOfRange =>
         && done < |requests| && !NothingOnNodes(run.nodes, requests[done])
         && exists c, ids :: PastTheList(run.nodes, guaranteed, requests[done], c, ids)
  }

  /** leastNUMAContainerScopeScore, over the init containers followed by the app containers.
      `placement` tells how the loop ended. */
  method LeastNUMAContainerScopeScore(nodes: array<NUMANode>, guaranteed: bool, requests: seq<ResourceList>)
      returns (placement: Placement, score: int, ghost done: nat, ghost run: Run, ghost c: seq<nat>,
               ghost ids: seq<nat>)
    requires IdsFit(nodes[..])
    modifies nodes
    ensures Finishes(run, guaranteed, requests, done, placement)
    ensures First(run) == old(nodes[..]) && (placement != OutOfRange ==> run.nodes == nodes[..])
    ensures placement == Placed ==> score == Grade(MostNodes(run), AllClosest(run))
    ensures placement == NoFit ==> score == 0
    ensures placement == OutOfRange ==> PastTheList(run.nodes, guaranteed, requests[done], c, ids)
  {
    var maxCount, allClose := 0, true;
    run, done, score, c, ids, placement := Start(nodes[..]), 0, 0, [], [], Placed;
    for k := 0 to |requests|
      invariant IdsFit(nodes[..]) && done == k && placement == Placed
      invariant IsRun(run, guaranteed, requests[..k]) && First(run) == old(nodes[..]) && run.nodes == nodes[..]
      invariant maxCount == MostNodes(run) && (allClose <==> AllClosest(run))
    {
      var count, isMin;
      placement, count, isMin, c, ids := PlaceContainer(nodes, guaranteed, requests[k]);
      if placement != Placed { return; }
      if !isMin { allClose := false; }
      if count > maxCount { maxCount := count; }
      RunGrows(run, guaranteed, requests, k, c, ids, nodes[..]);
      run, done := Then(run, c, ids, nodes[..]), k + 1;
    }
    assert requests[..|requests|] == requests;
    score := if maxCount == 0 then MAX_NODE_SCORE else NormalizeScore(maxCount, allClose);
  }

  // ---- The outcome is determined ----

  lemma TakenIsUnique(before: seq<NUMANode>, a: seq<NUMANode>, b: seq<NUMANode>, bits: seq<nat>, request: ResourceList)
    requires InRange(before, bits)
    requires TakenFrom(before, a, bits, request, request.Keys) && TakenFrom(before, b, bits, request, request.Keys)
    ensures a == b
  {
    forall i | 0 <= i < |before| ensures a[i] == b[i] {
      assert SameBut(before[i], a[i], request.Keys) && SameBut(before[i], b[i], request.Keys);
      if i in bits {
        var k :| 0 <= k < |bits| && bits[k] == i;
        forall n | n in before[i].resources && n in request ensures a[i].resources[n] == b[i].resources[n] {
          assert Gave(before, a[bits[k]], bits, n, request[n], k) && Gave(before, b[bits[k]], bits, n, request[n], k);
        }
        assert a[i].resources == b[i].resources;
      }
    }
  }

  lemma IdsAreUnique(nodes: seq<NUMANode>, guaranteed: bool, request: ResourceList, c: seq<nat>, ids: seq<nat>,
                     c': seq<nat>, ids': seq<nat>)
    requires IsLeast(nodes, guaranteed, request, c) && AreIds(nodes, c, ids)
    requires IsLeast(nodes, guaranteed, request, c') && AreIds(nodes, c', ids')
    ensures c == c' && ids == ids'
  {
    LeastIsUnique(nodes, guaranteed, request, c, c');
    SameIncreasing(ids, ids');
  }

  lemma StepIsUnique(before: seq<NUMANode>, a: seq<NUMANode>, b: seq<NUMANode>, guaranteed: bool, request: ResourceList,
                     c: seq<nat>, ids: seq<nat>, c': seq<nat>, ids': seq<nat>)
    requires RunStep(before, a, guaranteed, request, c, ids) && RunStep(before, b, guaranteed, request, c', ids')
    ensures a == b && c == c' && ids == ids'
  {
    if !NothingOnNodes(before, request) {
      IdsAreUnique(before, guaranteed, request, c, ids, c', ids');
      TakenIsUnique(before, a, b, Reached(before, ids), request);
    }
  }

  lemma {:induction false} RunIsUnique(run: Run, run': Run, guaranteed: bool, requests: seq<ResourceList>)
    requires IsRun(run, guaranteed, requests) && IsRun(run', guaranteed, requests) && First(run) == First(run')
    ensures run == run'
  {
    if run.Then? {
      var k := |requests| - 1;
      RunIsUnique(run.before, run'.before, guaranteed, requests[..k]);
      StepIsUnique(run.before.nodes, run.nodes, run'.nodes, guaranteed, requests[k],
                   run.chosen, run.bits, run'.chosen, run'.bits);
    }
  }

  /** A container that can be placed is no end of the loop. */
  lemma StepIsNoEnd(nodes: seq<NUMANode>, after: seq<NUMANode>, guaranteed: bool, request: ResourceList, c: seq<nat>,
                    ids: seq<nat>)
    requires RunStep(nodes, after, guaranteed, request, c, ids) && !NothingOnNodes(nodes, request)
    ensures !NothingFits(nodes, guaranteed, request)
    ensures forall c', ids' :: !PastTheList(nodes, guaranteed, request, c', ids')
  {
    forall c', ids' | PastTheList(nodes, guaranteed, request, c', ids') ensures false {
      IdsAreUnique(nodes, guaranteed, request, c, ids, c', ids');
    }
  }

  /** The part of a run up to container k, which was then placed. */
  lemma {:induction false} RunUpTo(run: Run, guaranteed: bool, requests: seq<ResourceList>, k: nat)
      returns (part: Run, c: seq<nat>, ids: seq<nat>, after: seq<NUMANode>)
    requires IsRun(run, guaranteed, requests) && k < |requests|
    ensures First(part) == First(run) && IsRun(part, guaranteed, requests[..k])
    ensures RunStep(part.nodes, after, guaranteed, requests[k], c, ids)
  {
    var n := |requests| - 1;
    RunEnds(run, guaranteed, requests);
    if k == n {
      part, c, ids, after := run.before, run.chosen, run.bits, run.nodes;
    } else {
      assert requests[..n][..k] == requests[..k] && requests[..n][k] == requests[k];
      part, c, ids, after := RunUpTo(run.before, guaranteed, requests[..n], k);
    }
  }

  lemma FinishIsLast(run: Run, run': Run, guaranteed: bool, requests: seq<ResourceList>, done: nat, done': nat,
                     placement: Placement)
    requires Finishes(run, guaranteed, requests, done, placement)
    requires done' <= |requests| && IsRun(run', guaranteed, requests[..done']) && First(run) == First(run')
    ensures done' <= done
  {
    if done < done' {
      var part, c, ids, after := RunUpTo(run', guaranteed, requests[..done'], done);
      assert requests[..done'][..done] == requests[..done];
      RunIsUnique(part, run, guaranteed, requests[..done]);
      StepIsNoEnd(run.nodes, after, guaranteed, requests[done], c, ids);
    }
  }

  /** Node list and containers determine how the loop ends, where, and what it scores. */
  lemma FinishIsUnique(run: Run, run': Run, guaranteed: bool, requests: seq<ResourceList>, done: nat, done': nat,
                       placement: Placement, placement': Placement)
    requires Finishes(run, guaranteed, requests, done, placement) &&
             Finishes(run', guaranteed, requests, done', placement')
    requires First(run) == First(run')
    ensures run == run' && done == done' && placement == placement'
  {
    FinishIsLast(run, run', guaranteed, requests, done, done', placement);
    FinishIsLast(run', run, guaranteed, requests, done', done, placement');
    RunIsUnique(run, run', guaranteed, requests[..done]);
    if done < |requests| { FitsOrNot(run.nodes, guaranteed, requests[done]); }
  }

  lemma FitsOrNot(nodes: seq<NUMANode>, guaranteed: bool, request: ResourceList)
    ensures !(NothingFits(nodes, guaranteed, request) && exists c, ids ::
            PastTheList(nodes, guaranteed, request, c, ids))
  {
  }

  /** leastNUMAPodScopeScore: one search for the effective request of the whole pod. */
  method LeastNUMAPodScopeScore(nodes: seq<NUMANode>, guaranteed: bool, pod: TopologyPod)
      returns (score: int, ghost c: seq<nat>)
    ensures NothingOnNodes(nodes, Effective(pod)) ==> score == MAX_NODE_SCORE
    ensures !NothingOnNodes(nodes, Effective(pod)) && NothingFits(nodes, guaranteed, Effective(pod)) ==> score == 0
    ensures !NothingOnNodes(nodes, Effective(pod)) && !NothingFits(nodes, guaranteed, Effective(pod)) ==>
              && IsLeast(nodes, guaranteed, Effective(pod), c)
              && score == NormalizeScore(|set i | 0 <= i < |c| :: nodes[c[i]].id|, IsClosest(nodes, c))
  {
    c := [];
    var request := GetPodEffectiveRequest(pod);
    var only := OnlyNonNUMAResources(nodes, request);
    if only { return MAX_NODE_SCORE, c; }
    var mask, isMin;
    mask, isMin, c := NumaNodesRequired(nodes, guaranteed, request);
    if mask.None? { return 0, c; }
    score := NormalizeScore(|mask.value|, isMin);
  }

  // ---- Conservation over the whole pod ----

  ghost predicate OnNodes(nodes: seq<NUMANode>, name: string)
  {
    exists i :: 0 <= i < |nodes| && name in nodes[i].resources
  }

  /** What the nodes at these positions hold. */
  ghost function HeldBy(nodes: seq<NUMANode>, bits: seq<nat>, name: string): nat
  {
    Total(ResourcesAt(nodes, Reached(nodes, bits)), name)
  }

  /** The nodes used up for each container held all that it asked for. */
  ghost predicate EachHeld(run: Run, requests: seq<ResourceList>, name: string)
  {
    run.Then? && requests != [] ==>
      var n := |requests| - 1;
      && EachHeld(run.before, requests[..n], name)
      && Quantity(requests[n], name) <= HeldBy(run.before.nodes, run.bits, name)
  }

  lemma StepDrop(before: seq<NUMANode>, after: seq<NUMANode>, guaranteed: bool, request: ResourceList, c: seq<nat>,
                 bits: seq<nat>, name: string)
    requires RunStep(before, after, guaranteed, request, c, bits) && OnNodes(before, name)
    ensures Overall(before, name) - Overall(after, name) == Smaller(Quantity(request, name), HeldBy(before, bits, name))
    ensures OnNodes(after, name)
  {
    if NothingOnNodes(before, request) {
      var w :| 0 <= w < |before| && name in before[w].resources;
      assert name !in request;
    } else {
      StaysOnNodes(before, after, request, Reached(before, bits), name);
      SubtractionConserves(before, after, Reached(before, bits), request, name);
    }
  }

  lemma StaysOnNodes(before: seq<NUMANode>, after: seq<NUMANode>, request: ResourceList, bits: seq<nat>, name: string)
    requires InRange(before, bits) && TakenFrom(before, after, bits, request, request.Keys) && OnNodes(before, name)
    ensures OnNodes(after, name)
  {
    var w :| 0 <= w < |before| && name in before[w].resources;
    assert SameBut(before[w], after[w], request.Keys);
  }

  lemma RunEnds(run: Run, guaranteed: bool, requests: seq<ResourceList>)
    requires IsRun(run, guaranteed, requests) && run.Then?
    ensures requests != [] && IsRun(run.before, guaranteed, requests[..|requests| - 1])
    ensures RunStep(run.before.nodes, run.nodes, guaranteed, requests[|requests| - 1], run.chosen, run.bits)
  {
  }

  /** Whatever the run, the machine loses no more of a resource than the containers asked for
      together, and exactly that much when, and only when, the nodes used up for each held it. */
  lemma {:induction false} PodConserves(run: Run, guaranteed: bool, requests: seq<ResourceList>, name: string)
    requires IsRun(run, guaranteed, requests) && OnNodes(First(run), name)
    ensures OnNodes(run.nodes, name)
    ensures var drop := Overall(First(run), name) - Overall(run.nodes, name);
            0 <= drop <= Total(requests, name) && (drop == Total(requests, name) <==> EachHeld(run, requests, name))
  {
    if run.Then? {
      var k := |requests| - 1;
      RunEnds(run, guaranteed, requests);
      PodConserves(run.before, guaranteed, requests[..k], name);
      StepDrop(run.before.nodes, run.nodes, guaranteed, requests[k], run.chosen, run.bits, name);
      TotalLast(requests, name);
    }
  }

  ghost predicate IdIsIndex(nodes: seq<NUMANode>) { forall i :: 0 <= i < |nodes| ==> nodes[i].id == i }

  /** Where ids are list positions, the nodes used up are the nodes chosen. */
  lemma ChosenAreUsed(nodes: seq<NUMANode>, c: seq<nat>, bits: seq<nat>)
    requires IdIsIndex(nodes) && IsSubset(nodes, c) && InRange(nodes, c) && AreIds(nodes, c, bits)
    ensures bits == c == Reached(nodes, bits)
  {
    assert forall i :: 0 <= i < |c| ==> nodes[c[i]].id == c[i];
    assert BitSet(c) == set i | 0 <= i < |c| :: nodes[c[i]].id;
    SameIncreasing(bits, c);
  }

  /** So there every request is taken in full, for guaranteed pods and, of the resources that
      are checked for every pod, for all. */
  lemma {:induction false} AlignedRunsHold(run: Run, guaranteed: bool, requests: seq<ResourceList>, name: string)
    requires IsRun(run, guaranteed, requests) && OnNodes(First(run), name) && IdIsIndex(First(run))
    requires guaranteed || !IsAffine(name)
    ensures EachHeld(run, requests, name) && IdIsIndex(run.nodes)
    ensures Overall(First(run), name) - Overall(run.nodes, name) == Total(requests, name)
  {
    if run.Then? {
      var k := |requests| - 1;
      RunEnds(run, guaranteed, requests);
      AlignedRunsHold(run.before, guaranteed, requests[..k], name);
      PodConserves(run.before, guaranteed, requests[..k], name);
      StepHolds(run.before.nodes, run.nodes, guaranteed, requests[k], run.chosen, run.bits, name);
    }
    PodConserves(run, guaranteed, requests, name);
  }

  lemma StepHolds(before: seq<NUMANode>, after: seq<NUMANode>, guaranteed: bool, request: ResourceList, c: seq<nat>,
                  bits: seq<nat>, name: string)
    requires RunStep(before, after, guaranteed, request, c, bits) && OnNodes(before, name) && IdIsIndex(before)
    requires guaranteed || !IsAffine(name)
    ensures IdIsIndex(after) && Quantity(request, name) <= HeldBy(before, bits, name)
  {
    if NothingOnNodes(before, request) {
      var w :| 0 <= w < |before| && name in before[w].resources;
      assert name !in request;
    } else {
      StaysAligned(before, after, Reached(before, bits), request);
      ChosenAreUsed(before, c, bits);
      if name in request { LeastHasEnough(before, guaranteed, request, c, name); }
    }
  }

  lemma StaysAligned(before: seq<NUMANode>, after: seq<NUMANode>, used: seq<nat>, request: ResourceList)
    requires IdIsIndex(before) && InRange(before, used) && TakenFrom(before, after, used, request, request.Keys)
    ensures IdIsIndex(after)
  {
    forall i | 0 <= i < |after| ensures after[i].id == i { assert SameBut(before[i], after[i], request.Keys); }
  }

  /** The nodes chosen for a container hold all it asks for of a resource that is checked. */
  lemma LeastHasEnough(nodes: seq<NUMANode>, guaranteed: bool, request: ResourceList, c: seq<nat>, name: string)
    requires IsLeast(nodes, guaranteed, request, c) && name in request && (guaranteed || !IsAffine(name))
    ensures InRange(nodes, c) && request[name] <= Total(ResourcesAt(nodes, c), name)
  {
    if request[name] > 0 {
      assert IsSuitable(guaranteed, name, request[name], Total(ResourcesAt(nodes, c), name));
    }
  }

  /** Two nodes listed against the order of their ids. */
  ghost function Swapped(): seq<NUMANode> { [NUMANode(1, map["cpu" := 4], map[]), NUMANode(0, map["cpu" := 1], map[])] }

  /** Where ids are not list positions a request can be taken from a node that was not chosen
      and does not hold it: here only one of the four CPUs disappears. */
  lemma MisplacedRequest(after: seq<NUMANode>)
    requires TakenFrom(Swapped(), after, [1], map["cpu" := 4], {"cpu"})
    ensures RunStep(Swapped(), after, true, map["cpu" := 4], [0], [1])
    ensures Overall(Swapped(), "cpu") - Overall(after, "cpu") == 1
  {
    var nodes, request := Swapped(), map["cpu" := 4];
    assert request.Keys == {"cpu"};
    assert "cpu" in nodes[0].resources && "cpu" in request;
    BigIsLeast();
    assert AreIds(nodes, [0], [1]) by { assert 1 in BitSet([1]) && nodes[[0][0]].id == 1; }
    assert Reached(nodes, [1]) == [1];
    LoneTotal(nodes, 1, "cpu");
    StepDrop(nodes, after, true, request, [0], [1], "cpu");
  }

  lemma BigIsLeast()
    ensures IsLeast(Swapped(), true, map["cpu" := 4], [0])
  {
    var nodes, request := Swapped(), map["cpu" := 4];
    LoneTotal(nodes, 0, "cpu");
    LoneTotal(nodes, 1, "cpu");
    SlitMakesAllNear(nodes, [0]);
    assert !Fits(nodes, true, request, [1]) by {
      assert !IsSuitable(true, "cpu", request["cpu"], Total(ResourcesAt(nodes, [1]), "cpu"));
    }
    forall d | d != [] && IsSubset(nodes, d) && Fits(nodes, true, request, d) && Near(nodes, d)
      ensures [0] == d || Before(nodes, [0], d)
    {
      if |d| == 1 { assert d == [0] || d == [1]; }
    }
  }

  /** CPU, memory and huge pages of other pods are not checked, and then even an aligned list can
      lose less than was asked: here one CPU of four. */
  lemma UncheckedRequestFallsShort(node: NUMANode, after: seq<NUMANode>)
    requires node == NUMANode(0, map["cpu" := 1], map[])
    requires TakenFrom([node], after, [0], map["cpu" := 4], {"cpu"})
    ensures IdIsIndex([node]) && RunStep([node], after, false, map["cpu" := 4], [0], [0])
    ensures Overall([node], "cpu") - Overall(after, "cpu") == 1
  {
    var nodes, request := [node], map["cpu" := 4];
    assert request.Keys == {"cpu"};
    LoneTotal(nodes, 0, "cpu");
    assert "cpu" in nodes[0].resources && "cpu" in request;
    assert SlitBounded(nodes);
    SlitMakesAllNear(nodes, [0]);
    forall d | d != [] && IsSubset(nodes, d) ensures d == [0] { SubsetIsSmall(d, 1); }
    assert AreIds(nodes, [0], [0]) by { assert 0 in BitSet([0]) && nodes[[0][0]].id == 0; }
    ChosenAreUsed(nodes, [0], [0]);
    StepDrop(nodes, after, false, request, [0], [0], "cpu");
  }

  lemma LoneTotal(nodes: seq<NUMANode>, i: nat, name: string)
    requires i < |nodes|
    ensures Total(ResourcesAt(nodes, [i]), name) == Quantity(nodes[i].resources, name)
  {
    assert ResourcesAt(nodes, [i]) == [] + [nodes[i].resources];
    TotalAppend([], nodes[i].resources, name);
  }

  lemma TotalLast(requests: seq<ResourceList>, name: string)
    requires requests != []
    ensures var k := |requests| - 1; Total(requests, name) == Total(requests[..k], name) + Quantity(requests[k], name)
  {
    var k := |requests| - 1;
    TotalAppend(requests[..k], requests[k], name);
    assert requests == requests[..k] + [requests[k]];
  }
}
