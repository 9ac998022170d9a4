/** The bandwidth operator's recomputation of a node's bandwidth object from the
    requests in its spec, the pods of the cluster and the locality of siblings. */
module BandwidthSync {
  import opened Options
  import opened BandwidthAnnotations

  datatype Capacity = Capacity(local: Rate, network: Rate)

  datatype Request = Request(podName: string, namespace: string, podUid: string, linkLocal: bool, bandwidth: Rate)

  datatype WorkloadRef = WorkloadRef(kind: string, name: string, uid: string)

  datatype Reservation = Reservation(podName: string, podUid: string, bandwidth: Capacity, namespace: string,
                                     workload: WorkloadRef)

  datatype State = Created | Creating | Deleted | Deleting | Error | Unset

  datatype Spec = Spec(node: string, capacity: Capacity, requests: seq<Request>)

  datatype Status = Status(state: State, errorReason: string, used: Capacity, remaining: Capacity,
                           reservations: seq<Reservation>, capacity: Capacity)

  datatype Phase = Pending | Running | Succeeded | Failed | Unknown

  datatype Owner = Owner(kind: string, name: string, uid: string, controller: bool)

  datatype ClusterPod = ClusterPod(uid: string, namespace: string, name: string, nodeName: string, phase: Phase,
                                   deleting: bool, annotations: Annotations, owners: seq<Owner>)

  /** All pods, in the order in which the API server lists them. */
  type Cluster = seq<ClusterPod>

  // ---- Helpers ----

  function Lower(c: char): char { if 'A' <= c <= 'Z' then (c as int - 'A' as int + 'a' as int) as char else c }

  function Fold(s: string): string { seq(|s|, i requires 0 <= i < |s| => Lower(s[i])) }

  /** strings.EqualFold, on ASCII. */
  predicate EqualFold(a: string, b: string) { Fold(a) == Fold(b) }

  /** Comparison without regard to case, letter by letter. */
  lemma FoldIgnoresCase(a: string, b: string)
    ensures EqualFold("Pod", "pod") && EqualFold("NODE-z", "node-Z")
    ensures !EqualFold("Pod", "Pods") && !EqualFold("a", "b")
    ensures EqualFold(a, b) <==> |a| == |b| && forall i :: 0 <= i < |a| ==> Lower(a[i]) == Lower(b[i])
  {
    assert Fold("Pod") == "pod" == Fold("pod") && Fold("NODE-z") == "node-z" == Fold("node-Z");
    assert |Fold("Pods")| == 4 && Fold("a")[0] == 'a' && Fold("b")[0] == 'b';
    if |a| == |b| && forall i :: 0 <= i < |a| ==> Lower(a[i]) == Lower(b[i]) { assert Fold(a) == Fold(b); }
    if EqualFold(a, b) {
      assert |Fold(a)| == |a| && |Fold(b)| == |b|;
      forall i | 0 <= i < |a| ensures Lower(a[i]) == Lower(b[i]) { assert Fold(a)[i] == Fold(b)[i]; }
    }
  }

  function FirstController(owners: seq<Owner>): Option<Owner>
  {
    if owners == [] then None else if owners[0].controller then Some(owners[0]) else FirstController(owners[1..])
  }

  /** GetWorkloadRefFromPod: the controlling owner, else the first owner, else the pod itself. */
  function WorkloadOf(p: ClusterPod): WorkloadRef
  {
    if p.owners == [] then WorkloadRef("Pod", p.name, p.uid)
    else
      var o := FirstController(p.owners);
      var owner := if o.Some? then o.value else p.owners[0];
      WorkloadRef(owner.kind, owner.name, owner.uid)
  }

  /** p counts as a sibling of the pods of this workload. */
  predicate IsSibling(namespace: string, w: WorkloadRef, p: ClusterPod)
  {
    && p.namespace == namespace && !p.deleting
    && EqualFold(WorkloadOf(p).uid, w.uid) && EqualFold(WorkloadOf(p).kind, w.kind)
  }

  /** The workload has siblings, and all of them run on this node. */
  ghost predicate AllLocal(cluster: Cluster, namespace: string, w: WorkloadRef, node: string)
  {
    && !EqualFold(w.kind, "Pod") && !EqualFold(w.kind, "")
    && (exists i :: 0 <= i < |cluster| && IsSibling(namespace, w, cluster[i]))
    && forall i :: 0 <= i < |cluster| && IsSibling(namespace, w, cluster[i]) ==> EqualFold(cluster[i].nodeName, node)
  }

  /** allSiblingsOnCurrentNode: compares two counts. */
  method AllSiblingsOnCurrentNode(cluster: Cluster, pod: ClusterPod, node: string) returns (answer: bool)
    ensures answer <==> AllLocal(cluster, pod.namespace, WorkloadOf(pod), node)
  {
    var ref := WorkloadOf(pod);
    if EqualFold(ref.kind, "Pod") || EqualFold(ref.kind, "") { return false; }
    var siblings, local := 0, 0;
    for i := 0 to |cluster|
      invariant 0 <= local <= siblings
      invariant siblings > 0 <==> exists j :: 0 <= j < i && IsSibling(pod.namespace, ref, cluster[j])
      invariant siblings == local <==>
                forall j :: 0 <= j < i && IsSibling(pod.namespace, ref, cluster[j]) ==>
                  EqualFold(cluster[j].nodeName, node)
    {
      var p := cluster[i];
      if p.namespace == pod.namespace && !p.deleting {
        var pRef := WorkloadOf(p);
        if EqualFold(pRef.uid, ref.uid) && EqualFold(pRef.kind, ref.kind) {
          if EqualFold(p.nodeName, node) { local := local + 1; }
          siblings := siblings + 1;
        }
      }
    }
    answer := siblings > 0 && siblings == local;
  }

  /** A pod on the node that holds bandwidth by its annotations. */
  predicate IsHolder(cfg: Config, node: string, p: ClusterPod)
  {
    p.nodeName == node && !p.deleting && p.phase != Succeeded && p.phase != Failed && HasRate(cfg, p.annotations)
  }

  /** podsWithBw: the last holder listed for each UID. */
  function Holders(cfg: Config, cluster: Cluster, node: string): map<string, ClusterPod>
  {
    if cluster == [] then map[]
    else
      var p := cluster[|cluster| - 1];
      var earlier := Holders(cfg, cluster[..|cluster| - 1], node);
      if IsHolder(cfg, node, p) then earlier[p.uid := p] else earlier
  }

  /** Pod i holds bandwidth under this UID, and no later pod does. */
  ghost predicate IsLastHolder(cfg: Config, cluster: Cluster, node: string, uid: string, i: nat)
  {
    && i < |cluster| && IsHolder(cfg, node, cluster[i]) && cluster[i].uid == uid
    && forall j :: i < j < |cluster| && IsHolder(cfg, node, cluster[j]) ==> cluster[j].uid != uid
  }

  lemma {:induction false} HolderIsLast(cfg: Config, cluster: Cluster, node: string, uid: string) returns (i: nat)
    requires uid in Holders(cfg, cluster, node)
    ensures IsLastHolder(cfg, cluster, node, uid, i) && Holders(cfg, cluster, node)[uid] == cluster[i]
  {
    i := |cluster| - 1;
    if !(IsHolder(cfg, node, cluster[i]) && cluster[i].uid == uid) { i := HolderIsLast(cfg, cluster[..i], node, uid); }
  }

  lemma {:induction false} HolderIsListed(cfg: Config, cluster: Cluster, node: string, i: nat)
    requires i < |cluster| && IsHolder(cfg, node, cluster[i])
    ensures cluster[i].uid in Holders(cfg, cluster, node)
  {
    if i < |cluster| - 1 { HolderIsListed(cfg, cluster[..|cluster| - 1], node, i); }
  }

  /** The UIDs are those of the holders, each with the holder listed last. */
  lemma LastHolderWins(cfg: Config, cluster: Cluster, node: string)
    ensures forall i :: 0 <= i < |cluster| && IsHolder(cfg, node, cluster[i]) ==>
            cluster[i].uid in Holders(cfg, cluster, node)
    ensures forall uid :: uid in Holders(cfg, cluster, node) ==>
              exists i: nat ::
                IsLastHolder(cfg, cluster, node, uid, i) && Holders(cfg, cluster, node)[uid] == cluster[i]
  {
    forall i | 0 <= i < |cluster| && IsHolder(cfg, node, cluster[i])
      ensures cluster[i].uid in Holders(cfg, cluster, node)
    {
      HolderIsListed(cfg, cluster, node, i);
    }
    forall uid | uid in Holders(cfg, cluster, node)
      ensures exists i: nat ::
                IsLastHolder(cfg, cluster, node, uid, i) && Holders(cfg, cluster, node)[uid] == cluster[i]
    {
      var i := HolderIsLast(cfg, cluster, node, uid);
    }
  }

  /** Reading a pod by name from the API server. */
  function Lookup(cluster: Cluster, namespace: string, name: string): Option<ClusterPod>
  {
    if cluster == [] then None
    else if cluster[0].namespace == namespace && cluster[0].name == name then Some(cluster[0])
    else Lookup(cluster[1..], namespace, name)
  }

  lemma {:induction false} LookupHasName(cluster: Cluster, namespace: string, name: string)
    ensures var p := Lookup(cluster, namespace, name); p.Some? ==>
            p.value.namespace == namespace && p.value.name == name
  {
    if cluster != [] { LookupHasName(cluster[1..], namespace, name); }
  }

  /** The request's pod is not on the node yet, but still pending. */
  predicate IsPending(cluster: Cluster, req: Request)
  {
    var p := Lookup(cluster, req.namespace, req.podName);
    p.Some? && p.value.uid == req.podUid && p.value.phase == Pending
  }

  /** The pending pod is being deleted; only one of the two recomputations cares. */
  predicate IsTerminating(cfg: Config, cluster: Cluster, node: string, req: Request)
  {
    req.podUid !in Holders(cfg, cluster, node) && IsPending(cluster, req) &&
      Lookup(cluster, req.namespace, req.podName).value.deleting
  }

  /** One request that was kept: its pod, the rate charged for it, and whether it stays on the node. */
  datatype Item = Item(pod: ClusterPod, rate: Rate, isLocal: bool)

  /** The pod and the rate to charge, unless the request is dropped. `strict` drops terminating pods. */
  function Resolve(cfg: Config, cluster: Cluster, node: string, strict: bool, req: Request): Option<(ClusterPod, Rate)>
  {
    var holders := Holders(cfg, cluster, node);
    if req.podUid in holders then Some((holders[req.podUid], RateOf(cfg, holders[req.podUid].annotations)))
    else if IsPending(cluster, req) && !(strict && IsTerminating(cfg, cluster, node, req))
    then Some((Lookup(cluster, req.namespace, req.podName).value, req.bandwidth))
    else None
  }

  lemma ResolvedHasUid(cfg: Config, cluster: Cluster, node: string, strict: bool, req: Request)
    ensures var r := Resolve(cfg, cluster, node, strict, req); r.Some? ==> r.value.0.uid == req.podUid
  {
    if req.podUid in Holders(cfg, cluster, node) { var i := HolderIsLast(cfg, cluster, node, req.podUid); }
  }

  datatype Tally = Tally(items: seq<Item>, cache: map<string, bool>)

  ghost function AddItem(cluster: Cluster, node: string, t: Tally, pod: ClusterPod, rate: Rate): Tally
  {
    var w := WorkloadOf(pod);
    if w.uid in t.cache then Tally(t.items + [Item(pod, rate, t.cache[w.uid])], t.cache)
    else
      var isLocal := AllLocal(cluster, pod.namespace, w, node);
      Tally(t.items + [Item(pod, rate, isLocal)], t.cache[w.uid := isLocal])
  }

  /** Going through the requests, with sibling lookups remembered per owner UID. */
  ghost function Recompute(cfg: Config, cluster: Cluster, node: string, strict: bool, reqs: seq<Request>): Tally
  {
    if reqs == [] then Tally([], map[])
    else
      var n := |reqs| - 1;
      var t := Recompute(cfg, cluster, node, strict, reqs[..n]);
      match Resolve(cfg, cluster, node, strict, reqs[n])
      case None => t
      case Some((pod, rate)) => AddItem(cluster, node, t, pod, rate)
  }

  function ToRequest(i: Item): Request { Request(i.pod.name, i.pod.namespace, i.pod.uid, i.isLocal, i.rate) }

  function NetworkPart(i: Item): Rate { if i.isLocal then Rate(0, 0) else i.rate }

  function ToReservation(i: Item): Reservation
  {
    Reservation(i.pod.name, i.pod.uid, Capacity(i.rate, NetworkPart(i)), i.pod.namespace, WorkloadOf(i.pod))
  }

  function ToRequests(items: seq<Item>): seq<Request>
  {
    seq(|items|, i requires 0 <= i < |items| => ToRequest(items[i]))
  }

  function ToReservations(items: seq<Item>): seq<Reservation>
  {
    seq(|items|, i requires 0 <= i < |items| => ToReservation(items[i]))
  }

  function Plus(a: Rate, b: Rate): Rate { Rate(a.ul + b.ul, a.dl + b.dl) }

  function Minus(a: Rate, b: Rate): Rate { Rate(a.ul - b.ul, a.dl - b.dl) }

  ghost function LocalUsed(items: seq<Item>): Rate
  {
    if items == [] then Rate(0, 0) else Plus(LocalUsed(items[..|items| - 1]), items[|items| - 1].rate)
  }

  ghost function NetworkUsed(items: seq<Item>): Rate
  {
    if items == [] then Rate(0, 0) else Plus(NetworkUsed(items[..|items| - 1]), NetworkPart(items[|items| - 1]))
  }

  ghost function Used(items: seq<Item>): Capacity { Capacity(LocalUsed(items), NetworkUsed(items)) }

  function Remaining(c: Capacity, used: Capacity): Capacity
  {
    Capacity(Minus(c.local, used.local), Minus(c.network, used.network))
  }

  // ---- The two recomputations ----

  method BuildHolders(cfg: Config, cluster: Cluster, node: string) returns (holders: map<string, ClusterPod>)
    ensures holders == Holders(cfg, cluster, node)
    ensures forall i :: 0 <= i < |cluster| && IsHolder(cfg, node, cluster[i]) ==> cluster[i].uid in holders
    ensures forall uid :: uid in holders ==>
              exists i: nat :: IsLastHolder(cfg, cluster, node, uid, i) && holders[uid] == cluster[i]
  {
    holders := map[];
    for i := 0 to |cluster|
      invariant holders == Holders(cfg, cluster[..i], node)
    {
      assert cluster[..i + 1][..i] == cluster[..i];
      var p := cluster[i];
      if p.nodeName == node {
        if p.deleting { continue; }
        if p.phase == Succeeded || p.phase == Failed { continue; }
        if cfg.egress in p.annotations { holders := holders[p.uid := p]; continue; }
        if cfg.ingress in p.annotations { holders := holders[p.uid := p]; continue; }
      }
    }
    assert cluster[..|cluster|] == cluster;
    LastHolderWins(cfg, cluster, node);
  }

  /** What both loops accumulate. */
  datatype Totals = Totals(requests: seq<Request>, reservations: seq<Reservation>, used: Capacity,
                           cache: map<string, bool>)

  ghost predicate Accounts(t: Totals, y: Tally)
  {
    t == Totals(ToRequests(y.items), ToReservations(y.items), Used(y.items), y.cache)
  }

  /** The common end of both loop bodies: look up locality, through the cache, and book the pod. */
  method Book(cluster: Cluster, node: string, t: Totals, pod: ClusterPod, rate: Rate, ghost y: Tally)
      returns (out: Totals)
    requires Accounts(t, y)
    ensures Accounts(out, AddItem(cluster, node, y, pod, rate))
  {
    var w := WorkloadOf(pod);
    var isLocal, cache;
    if w.uid in t.cache {
      isLocal, cache := t.cache[w.uid], t.cache;
    } else {
      isLocal := AllSiblingsOnCurrentNode(cluster, pod, node);
      cache := t.cache[w.uid := isLocal];
    }
    var network := if isLocal then Rate(0, 0) else rate;
    var newReq := Request(pod.name, pod.namespace, pod.uid, isLocal, rate);
    var reservation := Reservation(pod.name, pod.uid, Capacity(rate, network), pod.namespace, w);
    out := Totals(t.requests + [newReq], t.reservations + [reservation],
                  Capacity(Plus(t.used.local, rate), Plus(t.used.network, network)), cache);
    ghost var item := Item(pod, rate, isLocal);
    assert (y.items + [item])[..|y.items|] == y.items;
    assert ToRequests(y.items + [item]) == ToRequests(y.items) + [ToRequest(item)];
    assert ToReservations(y.items + [item]) == ToReservations(y.items) + [ToReservation(item)];
  }

  /** The loop of SyncFromSpecAndPods. */
  method RecomputeForSync(cfg: Config, cluster: Cluster, node: string, reqs: seq<Request>) returns (t: Totals)
    ensures Accounts(t, Recompute(cfg, cluster, node, false, reqs))
  {
    var holders := BuildHolders(cfg, cluster, node);
    t := Totals([], [], Capacity(Rate(0, 0), Rate(0, 0)), map[]);
    for i := 0 to |reqs|
      invariant Accounts(t, Recompute(cfg, cluster, node, false, reqs[..i]))
    {
      assert reqs[..i + 1][..i] == reqs[..i];
      var req := reqs[i];
      ghost var y := Recompute(cfg, cluster, node, false, reqs[..i]);
      if req.podUid in holders {
        var pod := holders[req.podUid];
        t := Book(cluster, node, t, pod, RateOf(cfg, pod.annotations), y);
      } else {
        var found := Lookup(cluster, req.namespace, req.podName);
        if found.Some? && found.value.uid == req.podUid && found.value.phase == Pending {
          t := Book(cluster, node, t, found.value, req.bandwidth, y);
        }
      }
    }
    assert reqs[..|reqs|] == reqs;
  }

  /** The loop of syncSingleNodeBandwidth. */
  method RecomputeForSibling(cfg: Config, cluster: Cluster, node: string, reqs: seq<Request>) returns (t: Totals)
    ensures Accounts(t, Recompute(cfg, cluster, node, true, reqs))
  {
    var holders := BuildHolders(cfg, cluster, node);
    t := Totals([], [], Capacity(Rate(0, 0), Rate(0, 0)), map[]);
    for i := 0 to |reqs|
      invariant Accounts(t, Recompute(cfg, cluster, node, true, reqs[..i]))
    {
      assert reqs[..i + 1][..i] == reqs[..i];
      var req := reqs[i];
      ghost var y := Recompute(cfg, cluster, node, true, reqs[..i]);
      if req.podUid in holders {
        var pod := holders[req.podUid];
        t := Book(cluster, node, t, pod, RateOf(cfg, pod.annotations), y);
      } else {
        var found := Lookup(cluster, req.namespace, req.podName);
        if found.None? || found.value.uid != req.podUid { continue; }
        if found.value.deleting || found.value.phase == Succeeded || found.value.phase == Failed { continue; }
        if found.value.phase != Pending { continue; }
        t := Book(cluster, node, t, found.value, req.bandwidth, y);
      }
    }
    assert reqs[..|reqs|] == reqs;
  }

  ghost function Terminating(cfg: Config, cluster: Cluster, node: string, reqs: seq<Request>): nat
  {
    if reqs == [] then 0
    else
      var n := |reqs| - 1;
      Terminating(cfg, cluster, node, reqs[..n]) + if IsTerminating(cfg, cluster, node, reqs[n]) then 1 else 0
  }

  lemma {:induction false} LoopsDifferByTerminating(cfg: Config, cluster: Cluster, node: string, reqs: seq<Request>)
    ensures |Recompute(cfg, cluster, node, false, reqs).items| ==
            |Recompute(cfg, cluster, node, true, reqs).items| + Terminating(cfg, cluster, node, reqs)
    ensures Terminating(cfg, cluster, node, reqs) == 0 ==>
            Recompute(cfg, cluster, node, false, reqs) == Recompute(cfg, cluster, node, true, reqs)
  {
    if reqs != [] {
      LoopsDifferByTerminating(cfg, cluster, node, reqs[..|reqs| - 1]);
    }
  }

  lemma {:induction false} SomeTerminating(cfg: Config, cluster: Cluster, node: string, reqs: seq<Request>)
    ensures Terminating(cfg, cluster, node, reqs) == 0 <==>
            forall i :: 0 <= i < |reqs| ==> !IsTerminating(cfg, cluster, node, reqs[i])
  {
    if reqs != [] {
      var n := |reqs| - 1;
      SomeTerminating(cfg, cluster, node, reqs[..n]);
      assert forall i :: 0 <= i < n ==> reqs[..n][i] == reqs[i];
    }
  }

  /** The two recomputations agree exactly when no request belongs to a terminating pending pod. */
  lemma LoopsAgreeIff(cfg: Config, cluster: Cluster, node: string, reqs: seq<Request>)
    ensures Recompute(cfg, cluster, node, false, reqs) == Recompute(cfg, cluster, node, true, reqs) <==>
            forall i :: 0 <= i < |reqs| ==> !IsTerminating(cfg, cluster, node, reqs[i])
  {
    LoopsDifferByTerminating(cfg, cluster, node, reqs);
    SomeTerminating(cfg, cluster, node, reqs);
  }

  // ---- Which requests are kept, told from the cluster ----

  /** Some live pod of the node with a bandwidth annotation has this UID. */
  ghost predicate HasHolder(cfg: Config, cluster: Cluster, node: string, uid: string)
  {
    exists i :: 0 <= i < |cluster| && cluster[i].uid == uid && cluster[i].nodeName == node && !cluster[i].deleting &&
                cluster[i].phase != Succeeded && cluster[i].phase != Failed &&
                (cfg.egress in cluster[i].annotations || cfg.ingress in cluster[i].annotations)
  }

  /** Pod i is the one listed under this namespace and name. */
  ghost predicate IsNamed(cluster: Cluster, namespace: string, name: string, i: nat)
  {
    && i < |cluster| && cluster[i].namespace == namespace && cluster[i].name == name
    && forall j :: 0 <= j < i ==> !(cluster[j].namespace == namespace && cluster[j].name == name)
  }

  /** The pod listed under the names of the request has its UID and is still Pending. */
  ghost predicate StillPending(cluster: Cluster, req: Request, strict: bool)
  {
    exists i: nat ::
      && IsNamed(cluster, req.namespace, req.podName, i) && cluster[i].uid == req.podUid
      && cluster[i].phase == Pending && (strict ==> !cluster[i].deleting)
  }

  ghost predicate IsKept(cfg: Config, cluster: Cluster, node: string, strict: bool, req: Request)
  {
    HasHolder(cfg, cluster, node, req.podUid) || StillPending(cluster, req, strict)
  }

  /** The pod and the rate that a kept request is booked with: a holder with the rate of its
      annotations, else the pending pod with the rate of the request. */
  ghost predicate IsBooking(cfg: Config, cluster: Cluster, node: string, req: Request, pod: ClusterPod, rate: Rate)
  {
    if HasHolder(cfg, cluster, node, req.podUid) then
      && (exists i: nat :: IsLastHolder(cfg, cluster, node, req.podUid, i) && pod == cluster[i])
      && rate == RateOf(cfg, pod.annotations)
    else
      && (exists i: nat :: IsNamed(cluster, req.namespace, req.podName, i) && pod == cluster[i])
      && pod.uid == req.podUid && rate == req.bandwidth
  }

  lemma {:induction false} LookupIsNamed(cluster: Cluster, namespace: string, name: string)
    ensures var p := Lookup(cluster, namespace, name);
            && (p.Some? ==> exists i: nat :: IsNamed(cluster, namespace, name, i) && cluster[i] == p.value)
            && (p.None? ==> forall i: nat :: !IsNamed(cluster, namespace, name, i))
  {
    if cluster == [] {
    } else if cluster[0].namespace == namespace && cluster[0].name == name {
      assert IsNamed(cluster, namespace, name, 0);
    } else {
      LookupIsNamed(cluster[1..], namespace, name);
      forall i: nat | IsNamed(cluster, namespace, name, i)
        ensures i > 0 && IsNamed(cluster[1..], namespace, name, i - 1)
      {
        assert forall j :: 0 <= j < i - 1 ==> cluster[1..][j] == cluster[j + 1];
      }
      var found := Lookup(cluster, namespace, name);
      if i: nat :| IsNamed(cluster[1..], namespace, name, i) && found == Some(cluster[1..][i]) {
        assert forall j :: 0 < j <= i ==> cluster[j] == cluster[1..][j - 1];
        assert IsNamed(cluster, namespace, name, i + 1);
      }
    }
  }

  lemma NamedIsUnique(cluster: Cluster, namespace: string, name: string, i: nat, j: nat)
    requires IsNamed(cluster, namespace, name, i) && IsNamed(cluster, namespace, name, j)
    ensures i == j
  {
  }

  lemma PendingIff(cluster: Cluster, req: Request)
    ensures IsPending(cluster, req) <==> StillPending(cluster, req, false)
    ensures IsPending(cluster, req) && !Lookup(cluster, req.namespace, req.podName).value.deleting <==>
            StillPending(cluster, req, true)
  {
    LookupIsNamed(cluster, req.namespace, req.podName);
    if i: nat :| IsNamed(cluster, req.namespace, req.podName, i) {
      var k: nat :| IsNamed(cluster, req.namespace, req.podName, k) &&
                    cluster[k] == Lookup(cluster, req.namespace, req.podName).value;
      forall j: nat | IsNamed(cluster, req.namespace, req.podName, j) ensures j == k {
        NamedIsUnique(cluster, req.namespace, req.podName, j, k);
      }
    }
  }

  lemma HolderIff(cfg: Config, cluster: Cluster, node: string, uid: string)
    ensures uid in Holders(cfg, cluster, node) <==> HasHolder(cfg, cluster, node, uid)
  {
    LastHolderWins(cfg, cluster, node);
    if HasHolder(cfg, cluster, node, uid) {
      var i :| 0 <= i < |cluster| && cluster[i].uid == uid && cluster[i].nodeName == node && !cluster[i].deleting &&
               cluster[i].phase != Succeeded && cluster[i].phase != Failed &&
               (cfg.egress in cluster[i].annotations || cfg.ingress in cluster[i].annotations);
      assert IsHolder(cfg, node, cluster[i]);
    }
  }

  lemma ResolveByCluster(cfg: Config, cluster: Cluster, node: string, strict: bool, req: Request)
    ensures var r := Resolve(cfg, cluster, node, strict, req);
            && (r.Some? <==> IsKept(cfg, cluster, node, strict, req))
            && (r.Some? ==> IsBooking(cfg, cluster, node, req, r.value.0, r.value.1))
  {
    HolderIff(cfg, cluster, node, req.podUid);
    PendingIff(cluster, req);
    if req.podUid in Holders(cfg, cluster, node) {
      var i := HolderIsLast(cfg, cluster, node, req.podUid);
    } else {
      LookupIsNamed(cluster, req.namespace, req.podName);
    }
  }

  ghost function Keeps(cfg: Config, cluster: Cluster, node: string, strict: bool, reqs: seq<Request>): nat -> bool
  {
    (i: nat) => i < |reqs| && IsKept(cfg, cluster, node, strict, reqs[i])
  }

  /** The positions below n, in order, at which something holds. */
  ghost predicate IsFilter(n: nat, holds: nat -> bool, ps: seq<nat>)
  {
    && (forall k :: 0 <= k < |ps| ==> ps[k] < n)
    && (forall k, l :: 0 <= k < l < |ps| ==> ps[k] < ps[l])
    && forall i: nat :: i < n ==> (i in ps <==> holds(i))
  }

  /** Item k answers to position ps[k]. */
  ghost predicate Answer(books: (nat, Item) -> bool, items: seq<Item>, ps: seq<nat>)
  {
    |ps| == |items| && forall k :: 0 <= k < |ps| ==> books(ps[k], items[k])
  }

  lemma FilterGrows(n: nat, holds: nat -> bool, books: (nat, Item) -> bool, items: seq<Item>, more: seq<Item>,
                    ps: seq<nat>)
    requires IsFilter(n, holds, ps) && Answer(books, items, ps)
    requires if holds(n) then |more| == |items| + 1 && more[..|items|] == items && books(n, more[|items|])
             else more == items
    ensures IsFilter(n + 1, holds, if holds(n) then ps + [n] else ps)
    ensures Answer(books, more, if holds(n) then ps + [n] else ps)
  {
    if holds(n) {
      forall k | 0 <= k < |items| ensures books(ps[k], more[k]) { assert more[k] == items[k]; }
    }
  }

  ghost function Books(cfg: Config, cluster: Cluster, node: string, reqs: seq<Request>): (nat, Item) -> bool
  {
    (i: nat, item: Item) => i < |reqs| && IsBooking(cfg, cluster, node, reqs[i], item.pod, item.rate)
  }

  lemma RecomputeByCluster(cfg: Config, cluster: Cluster, node: string, strict: bool, reqs: seq<Request>, n: nat)
    requires n < |reqs|
    ensures var items := Recompute(cfg, cluster, node, strict, reqs[..n]).items;
            var more := Recompute(cfg, cluster, node, strict, reqs[..n + 1]).items;
            if Keeps(cfg, cluster, node, strict, reqs)(n) then
              && |more| == |items| + 1 && more[..|items|] == items
              && Books(cfg, cluster, node, reqs)(n, more[|items|])
            else more == items
  {
    assert reqs[..n + 1][..n] == reqs[..n];
    ResolveByCluster(cfg, cluster, node, strict, reqs[n]);
  }

  lemma {:induction false} KeptUpTo(cfg: Config, cluster: Cluster, node: string, strict: bool, reqs: seq<Request>,
                                    n: nat)
      returns (ps: seq<nat>)
    requires n <= |reqs|
    ensures IsFilter(n, Keeps(cfg, cluster, node, strict, reqs), ps)
    ensures Answer(Books(cfg, cluster, node, reqs), Recompute(cfg, cluster, node, strict, reqs[..n]).items, ps)
  {
    if n == 0 {
      ps := [];
    } else {
      var m: nat := n - 1;
      var holds, books := Keeps(cfg, cluster, node, strict, reqs), Books(cfg, cluster, node, reqs);
      ps := KeptUpTo(cfg, cluster, node, strict, reqs, m);
      RecomputeByCluster(cfg, cluster, node, strict, reqs, m);
      FilterGrows(m, holds, books, Recompute(cfg, cluster, node, strict, reqs[..m]).items,
                  Recompute(cfg, cluster, node, strict, reqs[..n]).items, ps);
      ps := if holds(m) then ps + [m] else ps;
    }
  }

  /** A sync keeps, in their order, exactly the requests of which the cluster shows a holder or
      a pending pod, each with that pod and its rate. */
  lemma KeptByCluster(cfg: Config, cluster: Cluster, node: string, strict: bool, reqs: seq<Request>)
      returns (ps: seq<nat>)
    ensures var items := Recompute(cfg, cluster, node, strict, reqs).items;
            && |ps| == |items| && (forall k, l :: 0 <= k < l < |ps| ==> ps[k] < ps[l])
            && (forall i :: 0 <= i < |reqs| ==> (i in ps <==> IsKept(cfg, cluster, node, strict, reqs[i])))
            && forall k :: 0 <= k < |ps| ==>
                 ps[k] < |reqs| && IsBooking(cfg, cluster, node, reqs[ps[k]], items[k].pod, items[k].rate)
  {
    ps := KeptUpTo(cfg, cluster, node, strict, reqs, |reqs|);
    assert reqs[..|reqs|] == reqs;
    var items := Recompute(cfg, cluster, node, strict, reqs).items;
    forall i | 0 <= i < |reqs| ensures i in ps <==> IsKept(cfg, cluster, node, strict, reqs[i]) {
      assert Keeps(cfg, cluster, node, strict, reqs)(i) == IsKept(cfg, cluster, node, strict, reqs[i]);
    }
    forall k | 0 <= k < |ps|
      ensures ps[k] < |reqs| && IsBooking(cfg, cluster, node, reqs[ps[k]], items[k].pod, items[k].rate)
    {
      assert Books(cfg, cluster, node, reqs)(ps[k], items[k]);
    }
  }

  // ---- Owners and siblings ----

  /** The owner that counts: the first controlling one, else the first, else the pod itself. */
  lemma {:induction false} ControllerIsFirst(owners: seq<Owner>)
    ensures FirstController(owners).Some? ==>
              exists i :: 0 <= i < |owners| && owners[i].controller && FirstController(owners) == Some(owners[i]) &&
                          forall j :: 0 <= j < i ==> !owners[j].controller
    ensures FirstController(owners).None? ==> forall i :: 0 <= i < |owners| ==> !owners[i].controller
  {
    if owners != [] && !owners[0].controller {
      var rest := owners[1..];
      ControllerIsFirst(rest);
      if FirstController(owners).Some? {
        var i :| 0 <= i < |rest| && rest[i].controller && FirstController(rest) == Some(rest[i]) &&
                 forall j :: 0 <= j < i ==> !rest[j].controller;
        assert owners[i + 1] == rest[i];
        assert forall j :: 1 <= j < i + 1 ==> owners[j] == rest[j - 1];
      }
      assert forall i :: 1 <= i < |owners| ==> owners[i] == rest[i - 1];
    }
  }

  lemma OwnerThatCounts(p: ClusterPod)
    ensures p.owners == [] ==> WorkloadOf(p) == WorkloadRef("Pod", p.name, p.uid)
    ensures p.owners != [] ==>
              exists i :: 0 <= i < |p.owners| &&
                WorkloadOf(p) == WorkloadRef(p.owners[i].kind, p.owners[i].name, p.owners[i].uid) &&
                (forall j :: 0 <= j < i ==> !p.owners[j].controller) &&
                (p.owners[i].controller || (i == 0 && forall j :: 0 <= j < |p.owners| ==> !p.owners[j].controller))
  {
    ControllerIsFirst(p.owners);
  }

  /** What one more pod in the cluster does to the locality of a workload. */
  lemma LocalityWithOneMore(cluster: Cluster, p: ClusterPod, namespace: string, w: WorkloadRef, node: string)
    ensures w.kind == "Pod" || w.kind == "" ==> !AllLocal(cluster, namespace, w, node)
    ensures p.deleting || p.namespace != namespace || !EqualFold(WorkloadOf(p).uid, w.uid) ==>
              (AllLocal(cluster + [p], namespace, w, node) <==> AllLocal(cluster, namespace, w, node))
    ensures !p.deleting && p.namespace == namespace && WorkloadOf(p) == w && !EqualFold(p.nodeName, node) ==>
              !AllLocal(cluster + [p], namespace, w, node)
    ensures AllLocal(cluster, namespace, w, node) && p.nodeName == node ==> AllLocal(cluster + [p], namespace, w, node)
  {
    var more := cluster + [p];
    assert forall i :: 0 <= i < |cluster| ==> more[i] == cluster[i];
    assert more[|cluster|] == p;
    if i :| 0 <= i < |cluster| && IsSibling(namespace, w, cluster[i]) { assert IsSibling(namespace, w, more[i]); }
  }

  // ---- The sibling cache ----

  /** The same recomputation with a fresh sibling lookup for every pod. */
  ghost function Uncached(cfg: Config, cluster: Cluster, node: string, strict: bool, reqs: seq<Request>): seq<Item>
  {
    if reqs == [] then []
    else
      var n := |reqs| - 1;
      var items := Uncached(cfg, cluster, node, strict, reqs[..n]);
      match Resolve(cfg, cluster, node, strict, reqs[n])
      case None => items
      case Some((pod, rate)) => items + [Item(pod, rate, AllLocal(cluster, pod.namespace, WorkloadOf(pod), node))]
  }

  /** Pods of one owner UID share a namespace and, up to case, the owner's kind. */
  ghost predicate OwnersAreConsistent(cfg: Config, cluster: Cluster, node: string, strict: bool, reqs: seq<Request>)
  {
    forall i, j :: 0 <= i < |reqs| && 0 <= j < |reqs| ==>
      Consistent(Resolve(cfg, cluster, node, strict, reqs[i]), Resolve(cfg, cluster, node, strict, reqs[j]))
  }

  ghost predicate Consistent(a: Option<(ClusterPod, Rate)>, b: Option<(ClusterPod, Rate)>)
  {
    a.Some? && b.Some? && WorkloadOf(a.value.0).uid == WorkloadOf(b.value.0).uid ==>
      a.value.0.namespace == b.value.0.namespace && EqualFold(WorkloadOf(a.value.0).kind, WorkloadOf(b.value.0).kind)
  }

  lemma LocalityDependsOnOwner(cluster: Cluster, node: string, p: ClusterPod, q: ClusterPod)
    requires p.namespace == q.namespace && WorkloadOf(p).uid == WorkloadOf(q).uid
    requires EqualFold(WorkloadOf(p).kind, WorkloadOf(q).kind)
    ensures AllLocal(cluster, p.namespace, WorkloadOf(p), node) == AllLocal(cluster, q.namespace, WorkloadOf(q), node)
  {
    forall i | 0 <= i < |cluster|
      ensures IsSibling(p.namespace, WorkloadOf(p), cluster[i]) <==>
              IsSibling(q.namespace, WorkloadOf(q), cluster[i])
    {
    }
  }

  /** The answer is the right one for the pod of this item, whose owner has this UID. */
  ghost predicate Answers(cluster: Cluster, node: string, item: Item, uid: string, answer: bool)
  {
    WorkloadOf(item.pod).uid == uid && answer == AllLocal(cluster, item.pod.namespace, WorkloadOf(item.pod), node)
  }

  /** Every remembered answer is the answer for some pod already booked. */
  ghost predicate CacheIsHonest(cluster: Cluster, node: string, t: Tally)
  {
    forall uid :: uid in t.cache ==>
      exists i :: 0 <= i < |t.items| && Answers(cluster, node, t.items[i], uid, t.cache[uid])
  }

  /** The item came from one of the requests. */
  ghost predicate Booked(cfg: Config, cluster: Cluster, node: string, strict: bool, reqs: seq<Request>, item: Item)
  {
    exists j :: 0 <= j < |reqs| && Resolve(cfg, cluster, node, strict, reqs[j]) == Some((item.pod, item.rate))
  }

  lemma HonestStep(cluster: Cluster, node: string, t: Tally, pod: ClusterPod, rate: Rate)
    requires CacheIsHonest(cluster, node, t)
    ensures CacheIsHonest(cluster, node, AddItem(cluster, node, t, pod, rate))
  {
    var t' := AddItem(cluster, node, t, pod, rate);
    forall uid | uid in t'.cache
      ensures exists i :: 0 <= i < |t'.items| && Answers(cluster, node, t'.items[i], uid, t'.cache[uid])
    {
      if uid in t.cache {
        var i :| 0 <= i < |t.items| && Answers(cluster, node, t.items[i], uid, t.cache[uid]);
        assert t'.items[i] == t.items[i];
      } else {
        assert Answers(cluster, node, t'.items[|t.items|], uid, t'.cache[uid]);
      }
    }
  }

  /** The memo table changes nothing as long as an owner UID determines namespace and kind. */
  lemma {:induction false} CacheIsTransparent(cfg: Config, cluster: Cluster, node: string, strict: bool,
                                              reqs: seq<Request>)
    requires OwnersAreConsistent(cfg, cluster, node, strict, reqs)
    ensures var t := Recompute(cfg, cluster, node, strict, reqs);
            && t.items == Uncached(cfg, cluster, node, strict, reqs)
            && CacheIsHonest(cluster, node, t)
            && forall i :: 0 <= i < |t.items| ==> Booked(cfg, cluster, node, strict, reqs, t.items[i])
  {
    if reqs != [] {
      var n := |reqs| - 1;
      assert forall i :: 0 <= i < n ==> reqs[..n][i] == reqs[i];
      CacheIsTransparent(cfg, cluster, node, strict, reqs[..n]);
      var t := Recompute(cfg, cluster, node, strict, reqs[..n]);
      forall i | 0 <= i < |t.items| ensures Booked(cfg, cluster, node, strict, reqs, t.items[i]) {
        assert Booked(cfg, cluster, node, strict, reqs[..n], t.items[i]);
        var j :| 0 <= j < n && Resolve(cfg, cluster, node, strict, reqs[..n][j]) ==
          Some((t.items[i].pod, t.items[i].rate));
        assert reqs[..n][j] == reqs[j];
      }
      var r := Resolve(cfg, cluster, node, strict, reqs[n]);
      if r.Some? {
        var (pod, rate) := r.value;
        HonestStep(cluster, node, t, pod, rate);
        CachedAnswerIsRight(cfg, cluster, node, strict, reqs, t, pod, rate);
      }
    }
  }

  lemma CachedAnswerIsRight(cfg: Config, cluster: Cluster, node: string, strict: bool, reqs: seq<Request>, t: Tally,
                            pod: ClusterPod, rate: Rate)
    requires reqs != [] && OwnersAreConsistent(cfg, cluster, node, strict, reqs) && CacheIsHonest(cluster, node, t)
    requires Resolve(cfg, cluster, node, strict, reqs[|reqs| - 1]) == Some((pod, rate))
    requires forall i :: 0 <= i < |t.items| ==> Booked(cfg, cluster, node, strict, reqs, t.items[i])
    ensures AddItem(cluster, node, t, pod, rate).items ==
            t.items + [Item(pod, rate, AllLocal(cluster, pod.namespace, WorkloadOf(pod), node))]
  {
    var uid := WorkloadOf(pod).uid;
    if uid in t.cache {
      var i :| 0 <= i < |t.items| && Answers(cluster, node, t.items[i], uid, t.cache[uid]);
      SharedAnswer(cfg, cluster, node, strict, reqs, t.items[i], pod, rate);
    }
  }

  lemma SharedAnswer(cfg: Config, cluster: Cluster, node: string, strict: bool, reqs: seq<Request>, item: Item,
                     pod: ClusterPod, rate: Rate)
    requires reqs != [] && OwnersAreConsistent(cfg, cluster, node, strict, reqs)
    requires Resolve(cfg, cluster, node, strict, reqs[|reqs| - 1]) == Some((pod, rate))
    requires Booked(cfg, cluster, node, strict, reqs, item) && WorkloadOf(item.pod).uid == WorkloadOf(pod).uid
    ensures AllLocal(cluster, item.pod.namespace, WorkloadOf(item.pod), node) ==
            AllLocal(cluster, pod.namespace, WorkloadOf(pod), node)
  {
    var j :| 0 <= j < |reqs| && Resolve(cfg, cluster, node, strict, reqs[j]) == Some((item.pod, item.rate));
    assert Consistent(Resolve(cfg, cluster, node, strict, reqs[j]),
                      Resolve(cfg, cluster, node, strict, reqs[|reqs| - 1]));
    LocalityDependsOnOwner(cluster, node, item.pod, pod);
  }
}
