/** The stored bandwidth object of a node: what one operator sync does to it, that a
    second sync finds nothing to do, and that admissions never oversubscribe the node. */
module BandwidthObject {
  import opened Options
  import opened BandwidthAnnotations
  import opened BandwidthSync
  import opened Sums

  /** The object as the API server holds it. */
  datatype Stored = Stored(spec: Spec, status: Status)

  /** setDefaultBandwidthValues */
  function Defaulted(defaults: Capacity, c: Capacity): Capacity
  {
    Capacity(Rate(if c.local.ul == 0 then defaults.local.ul else c.local.ul,
                  if c.local.dl == 0 then defaults.local.dl else c.local.dl),
             Rate(if c.network.ul == 0 then defaults.network.ul else c.network.ul,
                  if c.network.dl == 0 then defaults.network.dl else c.network.dl))
  }

  /** existingReqs: the last request for each UID. */
  function Existing(reqs: seq<Request>): map<string, Request>
  {
    if reqs == [] then map[] else Existing(reqs[..|reqs| - 1])[reqs[|reqs| - 1].podUid := reqs[|reqs| - 1]]
  }

  ghost function Kept(cfg: Config, cluster: Cluster, s: Stored): seq<Item>
  {
    Recompute(cfg, cluster, s.spec.node, false, s.spec.requests).items
  }

  /** The object that books exactly these items. */
  ghost function Booking(defaults: Capacity, spec: Spec, items: seq<Item>): Stored
  {
    var c := Defaulted(defaults, spec.capacity);
    Stored(Spec(spec.node, c, ToRequests(items)),
           Status(Created, "", Used(items), Remaining(c, Used(items)), ToReservations(items), c))
  }

  /** What a sync computes, before deciding what to write. */
  ghost function Computed(cfg: Config, defaults: Capacity, cluster: Cluster, s: Stored): Stored
  {
    Booking(defaults, s.spec, Kept(cfg, cluster, s))
  }

  /** What a sync on behalf of a sibling writes, always. */
  ghost function SiblingSynced(cfg: Config, defaults: Capacity, cluster: Cluster, s: Stored): Stored
  {
    Booking(defaults, s.spec, Recompute(cfg, cluster, s.spec.node, true, s.spec.requests).items)
  }

  predicate Differs(before: map<string, Request>, r: Request) { r.podUid !in before || before[r.podUid] != r }

  predicate SpecChanged(s: Stored, computed: Stored)
  {
    || |s.spec.requests| != |computed.spec.requests|
    || computed.spec.capacity != s.status.capacity
    || exists i :: 0 <= i < |computed.spec.requests| && Differs(Existing(s.spec.requests), computed.spec.requests[i])
  }

  predicate StatusChanged(s: Stored, computed: Stored)
  {
    || s.status.used != computed.status.used
    || s.status.remaining != computed.status.remaining
    || s.status.capacity != computed.spec.capacity
    || s.status.state != Created
    || s.status.errorReason != ""
    || |s.status.reservations| != |computed.status.reservations|
  }

  /** The object after a sync: spec and status are written only when judged changed. */
  ghost function Synced(cfg: Config, defaults: Capacity, cluster: Cluster, s: Stored): Stored
  {
    var c := Computed(cfg, defaults, cluster, s);
    Stored(if SpecChanged(s, c) then c.spec else s.spec, if StatusChanged(s, c) then c.status else s.status)
  }

  const NAME_MISMATCH := "name mismatch between nodeName and bandwidthName"

  datatype Outcome = Gone | Mismatch | InStep(specChanged: bool, statusChanged: bool)

  class Bandwidth {
    const name: string
    var spec: Spec
    var status: Status

    constructor (name: string, spec: Spec, status: Status)
      ensures this.name == name && Value() == Stored(spec, status)
    {
      this.name, this.spec, this.status := name, spec, status;
    }

    ghost function Value(): Stored
      reads this
    {
      Stored(spec, status)
    }

    /** SyncFromSpecAndPods, with every write succeeding. */
    method SyncFromSpecAndPods(cfg: Config, defaults: Capacity, cluster: Cluster, nodes: set<string>)
        returns (outcome: Outcome)
      modifies this
      ensures old(spec).node !in nodes ==> outcome == Gone && Value() == old(Value())
      ensures old(spec).node in nodes && !EqualFold(name, old(spec).node) ==>
                && outcome == Mismatch && spec == old(spec)
                && status == old(status).(state := Error, errorReason := NAME_MISMATCH)
      ensures old(spec).node in nodes && EqualFold(name, old(spec).node) ==>
                var c := Computed(cfg, defaults, cluster, old(Value()));
                && outcome == InStep(SpecChanged(old(Value()), c), StatusChanged(old(Value()), c))
                && Value() == Synced(cfg, defaults, cluster, old(Value()))
    {
      var node := spec.node;
      if node !in nodes { return Gone; }
      if !EqualFold(name, node) {
        status := status.(state := Error, errorReason := NAME_MISMATCH);
        return Mismatch;
      }
      var capacity := Defaulted(defaults, spec.capacity);
      var t := RecomputeForSync(cfg, cluster, node, spec.requests);
      var remaining := Remaining(capacity, t.used);
      var existing := BuildExisting(spec.requests);
      var specChanged := |spec.requests| != |t.requests| || capacity != status.capacity;
      if !specChanged {
        for i := 0 to |t.requests|
          invariant specChanged <==> exists j :: 0 <= j < i && Differs(existing, t.requests[j])
          invariant spec == old(spec) && status == old(status)
        {
          if t.requests[i].podUid !in existing || existing[t.requests[i].podUid] != t.requests[i] {
            specChanged := true;
            break;
          }
        }
      }
      var statusChanged := status.used != t.used || status.remaining != remaining || status.capacity != capacity ||
        status.state != Created || status.errorReason != "" || |status.reservations| != |t.reservations|;
      if specChanged {
        spec := Spec(node, capacity, t.requests);
      }
      if statusChanged {
        status := Status(Created, "", t.used, remaining, t.reservations, capacity);
      }
      outcome := InStep(specChanged, statusChanged);
    }

    /** syncSingleNodeBandwidth, with every write succeeding. */
    method SyncSingleNodeBandwidth(cfg: Config, defaults: Capacity, cluster: Cluster, nodes: set<string>)
        returns (outcome: Outcome)
      modifies this
      ensures old(spec).node !in nodes ==> outcome == Gone && Value() == old(Value())
      ensures old(spec).node in nodes ==>
              outcome == InStep(true, true) && Value() == SiblingSynced(cfg, defaults, cluster, old(Value()))
    {
      var node := spec.node;
      if node !in nodes { return Gone; }
      var capacity := Defaulted(defaults, spec.capacity);
      var t := RecomputeForSibling(cfg, cluster, node, spec.requests);
      spec := Spec(node, capacity, t.requests);
      status := Status(Created, "", t.used, Remaining(capacity, t.used), t.reservations, capacity);
      outcome := InStep(true, true);
    }

    /** AddBandwidthRequest: one request per pod UID, the new one last. */
    method AddBandwidthRequest(podName: string, namespace: string, podUid: string, rate: Rate)
      modifies this
      ensures Value() == old(Value()).(spec := old(spec).(requests :=
                Without(old(spec).requests, podUid) + [Request(podName, namespace, podUid, false, rate)]))
    {
      var others := [];
      for i := 0 to |spec.requests|
        invariant spec == old(spec) && status == old(status)
        invariant others == Without(spec.requests[..i], podUid)
      {
        assert spec.requests[..i + 1][..i] == spec.requests[..i];
        if spec.requests[i].podUid != podUid { others := others + [spec.requests[i]]; }
      }
      assert spec.requests[..|spec.requests|] == spec.requests;
      spec := spec.(requests := others + [Request(podName, namespace, podUid, false, rate)]);
    }

    /** RemoveBandwidthRequest */
    method RemoveBandwidthRequest(podUid: string) returns (found: bool)
      modifies this
      ensures Value() == old(Value()).(spec := old(spec).(requests := Without(old(spec).requests, podUid)))
      ensures found <==> exists i :: 0 <= i < |old(spec).requests| && old(spec).requests[i].podUid == podUid
    {
      found := false;
      var others := [];
      for i := 0 to |spec.requests|
        invariant spec == old(spec) && status == old(status)
        invariant others == Without(spec.requests[..i], podUid)
        invariant found <==> exists j :: 0 <= j < i && spec.requests[j].podUid == podUid
      {
        assert spec.requests[..i + 1][..i] == spec.requests[..i];
        if spec.requests[i].podUid != podUid { others := others + [spec.requests[i]]; } else { found := true; }
      }
      assert spec.requests[..|spec.requests|] == spec.requests;
      if !found {
        WithoutAbsent(spec.requests, podUid);
        return;
      }
      spec := spec.(requests := others);
    }

    /** The plugin's Reserve: nothing to write for a pod without bandwidth. */
    method Reserve(cfg: Config, defaults: Capacity, podName: string, namespace: string, podUid: string, rate: Rate)
      modifies this
      ensures Value() == Next(cfg, defaults, old(Value()), Step.Reserve(podName, namespace, podUid, rate))
    {
      if rate.ul == 0 && rate.dl == 0 { return; }
      AddBandwidthRequest(podName, namespace, podUid, rate);
    }

    /** The plugin's Unreserve. */
    method Unreserve(cfg: Config, defaults: Capacity, podUid: string, rate: Rate)
      modifies this
      ensures Value() == if rate == Rate(0, 0) then old(Value())
              else Next(cfg, defaults, old(Value()), Step.Unreserve(podUid))
    {
      if rate.ul == 0 && rate.dl == 0 { return; }
      var _ := RemoveBandwidthRequest(podUid);
    }

    /** HasSufficientBandwidth; None when the object is not in Created state. */
    method HasSufficientBandwidth(rate: Rate) returns (sufficient: Option<bool>)
      ensures sufficient.None? <==> status.state != Created
      ensures sufficient.Some? ==> (sufficient.value <==> Suffices(status.remaining, rate))
    {
      if status.state != Created { return None; }
      if status.remaining.local.ul < rate.ul || status.remaining.local.dl < rate.dl { return Some(false); }
      if status.remaining.network.ul < rate.ul || status.remaining.network.dl < rate.dl { return Some(false); }
      return Some(true);
    }
  }

  predicate Suffices(remaining: Capacity, rate: Rate)
  {
    && remaining.local.ul >= rate.ul && remaining.local.dl >= rate.dl
    && remaining.network.ul >= rate.ul && remaining.network.dl >= rate.dl
  }

  method BuildExisting(reqs: seq<Request>) returns (m: map<string, Request>)
    ensures m == Existing(reqs)
  {
    m := map[];
    for i := 0 to |reqs|
      invariant m == Existing(reqs[..i])
    {
      assert reqs[..i + 1][..i] == reqs[..i];
      m := m[reqs[i].podUid := reqs[i]];
    }
    assert reqs[..|reqs|] == reqs;
  }

  function Without(reqs: seq<Request>, uid: string): seq<Request>
  {
    if reqs == [] then []
    else
      var n := |reqs| - 1;
      if reqs[n].podUid == uid then Without(reqs[..n], uid) else Without(reqs[..n], uid) + [reqs[n]]
  }

  lemma {:induction false} WithoutAbsent(reqs: seq<Request>, uid: string)
    requires forall i :: 0 <= i < |reqs| ==> reqs[i].podUid != uid
    ensures Without(reqs, uid) == reqs
  {
    if reqs != [] { WithoutAbsent(reqs[..|reqs| - 1], uid); }
  }

  /** Exactly the other pods' requests stay. */
  lemma {:induction false} WithoutIsFilter(reqs: seq<Request>, uid: string, r: Request)
    ensures r in Without(reqs, uid) <==> r in reqs && r.podUid != uid
  {
    if reqs != [] {
      var n := |reqs| - 1;
      WithoutIsFilter(reqs[..n], uid, r);
      assert r in reqs <==> r in reqs[..n] || r == reqs[n];
    }
  }

  /** Defaults stand in for zeros, component by component, and for nothing else. */
  lemma DefaultsFillZeros(defaults: Capacity, c: Capacity)
    ensures var d := Defaulted(defaults, c);
            && d.local.ul == (if c.local.ul != 0 then c.local.ul else defaults.local.ul)
            && d.local.dl == (if c.local.dl != 0 then c.local.dl else defaults.local.dl)
            && d.network.ul == (if c.network.ul != 0 then c.network.ul else defaults.network.ul)
            && d.network.dl == (if c.network.dl != 0 then c.network.dl else defaults.network.dl)
    ensures Defaulted(defaults, Defaulted(defaults, c)) == Defaulted(defaults, c)
  {
  }

  // ---- Request lists ----

  ghost predicate UniqueUids(reqs: seq<Request>)
  {
    forall i, j :: 0 <= i < j < |reqs| ==> reqs[i].podUid != reqs[j].podUid
  }

  ghost function LocalSum(reqs: seq<Request>): Rate
  {
    if reqs == [] then Rate(0, 0) else Plus(LocalSum(reqs[..|reqs| - 1]), reqs[|reqs| - 1].bandwidth)
  }

  ghost function NetworkSum(reqs: seq<Request>): Rate
  {
    if reqs == [] then Rate(0, 0)
    else
      var r := reqs[|reqs| - 1];
      Plus(NetworkSum(reqs[..|reqs| - 1]), if r.linkLocal then Rate(0, 0) else r.bandwidth)
  }

  ghost function TermAt(reqs: seq<Request>, f: Request -> int): nat -> int
  {
    (i: nat) => if i < |reqs| then f(reqs[i]) else 0
  }

  /** The sum of a number over all requests. */
  ghost function Over(reqs: seq<Request>, f: Request -> int): int { Sum(Below(|reqs|), TermAt(reqs, f)) }

  ghost function Uplink(): Request -> int { (r: Request) => r.bandwidth.ul }

  ghost function Downlink(): Request -> int { (r: Request) => r.bandwidth.dl }

  ghost function NetworkUplink(): Request -> int { (r: Request) => if r.linkLocal then 0 else r.bandwidth.ul }

  ghost function NetworkDownlink(): Request -> int { (r: Request) => if r.linkLocal then 0 else r.bandwidth.dl }

  lemma OverGrows(reqs: seq<Request>, f: Request -> int)
    requires reqs != []
    ensures Over(reqs, f) == Over(reqs[..|reqs| - 1], f) + f(reqs[|reqs| - 1])
  {
    var n: nat := |reqs| - 1;
    assert |reqs[..n]| == n && Below(|reqs|) == Below(n) + {n};
    SumSame(Below(n), TermAt(reqs[..n], f), TermAt(reqs, f));
    SumInsert(Below(n), TermAt(reqs, f), n);
  }

  /** The sums in numbers: over all requests and, on the network, over those that are not local. */
  lemma {:induction false} SumsInNumbers(reqs: seq<Request>)
    ensures LocalSum(reqs) == Rate(Over(reqs, Uplink()), Over(reqs, Downlink()))
    ensures NetworkSum(reqs) == Rate(Over(reqs, NetworkUplink()), Over(reqs, NetworkDownlink()))
  {
    if reqs != [] {
      SumsInNumbers(reqs[..|reqs| - 1]);
      OverGrows(reqs, Uplink());
      OverGrows(reqs, Downlink());
      OverGrows(reqs, NetworkUplink());
      OverGrows(reqs, NetworkDownlink());
    }
  }

  lemma {:induction false} SumsOfItems(items: seq<Item>)
    ensures LocalUsed(items) == LocalSum(ToRequests(items)) && NetworkUsed(items) == NetworkSum(ToRequests(items))
  {
    if items != [] {
      var n := |items| - 1;
      SumsOfItems(items[..n]);
      assert ToRequests(items)[..n] == ToRequests(items[..n]);
    }
  }

  lemma {:induction false} ExistingIsLast(reqs: seq<Request>, i: nat)
    requires i < |reqs| && UniqueUids(reqs)
    ensures reqs[i].podUid in Existing(reqs) && Existing(reqs)[reqs[i].podUid] == reqs[i]
  {
    var n := |reqs| - 1;
    if i < n { ExistingIsLast(reqs[..n], i); }
  }

  lemma RecomputeStep(cfg: Config, cluster: Cluster, node: string, strict: bool, reqs: seq<Request>)
    requires reqs != []
    ensures var n := |reqs| - 1;
            var items := Recompute(cfg, cluster, node, strict, reqs[..n]).items;
            var more := Recompute(cfg, cluster, node, strict, reqs).items;
            var r := Resolve(cfg, cluster, node, strict, reqs[n]);
            && (r.None? ==> more == items)
            && (r.Some? ==>
                  && |more| == |items| + 1 && more[..|items|] == items && more[|items|].pod.uid == reqs[n].podUid
                  && more[|items|].pod == r.value.0 && more[|items|].rate == r.value.1)
  {
    ResolvedHasUid(cfg, cluster, node, strict, reqs[|reqs| - 1]);
  }

  /** The kept items follow the requests: at most as many, and if as many, for the same UIDs. */
  lemma {:induction false} KeptFollowsRequests(cfg: Config, cluster: Cluster, node: string, strict: bool,
                                               reqs: seq<Request>)
    ensures var items := Recompute(cfg, cluster, node, strict, reqs).items;
            && |items| <= |reqs|
            && (|items| == |reqs| ==> forall i :: 0 <= i < |items| ==> items[i].pod.uid == reqs[i].podUid)
  {
    if reqs != [] {
      var n := |reqs| - 1;
      KeptFollowsRequests(cfg, cluster, node, strict, reqs[..n]);
      RecomputeStep(cfg, cluster, node, strict, reqs);
      var items := Recompute(cfg, cluster, node, strict, reqs[..n]).items;
      var more := Recompute(cfg, cluster, node, strict, reqs).items;
      if |more| == |reqs| {
        forall i | 0 <= i < n ensures more[i].pod.uid == reqs[i].podUid { assert more[i] == items[i]; }
      }
    }
  }

  lemma {:induction false} KeptFrom(cfg: Config, cluster: Cluster, node: string, strict: bool, reqs: seq<Request>,
                                    i: nat)
      returns (j: nat)
    requires i < |Recompute(cfg, cluster, node, strict, reqs).items|
    ensures j < |reqs| && reqs[j].podUid == Recompute(cfg, cluster, node, strict, reqs).items[i].pod.uid
  {
    var n := |reqs| - 1;
    RecomputeStep(cfg, cluster, node, strict, reqs);
    var items := Recompute(cfg, cluster, node, strict, reqs[..n]).items;
    if i < |items| {
      j := KeptFrom(cfg, cluster, node, strict, reqs[..n], i);
      assert Recompute(cfg, cluster, node, strict, reqs).items[i] == items[i];
    } else {
      j := n;
    }
  }

  lemma {:induction false} KeptIsUnique(cfg: Config, cluster: Cluster, node: string, strict: bool, reqs: seq<Request>)
    requires UniqueUids(reqs)
    ensures UniqueUids(ToRequests(Recompute(cfg, cluster, node, strict, reqs).items))
  {
    if reqs != [] {
      var n := |reqs| - 1;
      KeptIsUnique(cfg, cluster, node, strict, reqs[..n]);
      RecomputeStep(cfg, cluster, node, strict, reqs);
      var items := Recompute(cfg, cluster, node, strict, reqs[..n]).items;
      var more := Recompute(cfg, cluster, node, strict, reqs).items;
      forall i | 0 <= i < |items|
        ensures ToRequests(more)[i] == ToRequests(items)[i] && items[i].pod.uid != reqs[n].podUid
      {
        var j := KeptFrom(cfg, cluster, node, strict, reqs[..n], i);
        assert more[i] == items[i];
        assert reqs[..n][j] == reqs[j];
      }
    }
  }

  // ---- Fixpoint ----

  lemma ResolveAgain(cfg: Config, cluster: Cluster, node: string, strict: bool, req: Request, isLocal: bool)
    requires Resolve(cfg, cluster, node, strict, req).Some?
    ensures var (pod, rate) := Resolve(cfg, cluster, node, strict, req).value;
            Resolve(cfg, cluster, node, strict, ToRequest(Item(pod, rate, isLocal))) == Some((pod, rate))
  {
    ResolvedHasUid(cfg, cluster, node, strict, req);
    LookupHasName(cluster, req.namespace, req.podName);
  }

  /** Recomputing from what a recomputation kept gives the same again. */
  lemma {:induction false} RecomputeAgain(cfg: Config, cluster: Cluster, node: string, strict: bool, reqs: seq<Request>)
    ensures Recompute(cfg, cluster, node, strict, ToRequests(Recompute(cfg, cluster, node, strict, reqs).items)) ==
            Recompute(cfg, cluster, node, strict, reqs)
  {
    if reqs != [] {
      var n := |reqs| - 1;
      RecomputeAgain(cfg, cluster, node, strict, reqs[..n]);
      var t := Recompute(cfg, cluster, node, strict, reqs[..n]);
      var r := Resolve(cfg, cluster, node, strict, reqs[n]);
      if r.Some? {
        var t' := Recompute(cfg, cluster, node, strict, reqs);
        var item := t'.items[|t.items|];
        assert t'.items == t.items + [item];
        assert ToRequests(t'.items) == ToRequests(t.items) + [ToRequest(item)];
        assert ToRequests(t'.items)[..|t.items|] == ToRequests(t.items);
        ResolveAgain(cfg, cluster, node, strict, reqs[n], item.isLocal);
      }
    }
  }

  lemma UnchangedSpecIsSame(cfg: Config, defaults: Capacity, cluster: Cluster, s: Stored)
    requires UniqueUids(s.spec.requests)
    ensures var c := Computed(cfg, defaults, cluster, s); !SpecChanged(s, c) ==> c.spec.requests == s.spec.requests
  {
    var c := Computed(cfg, defaults, cluster, s);
    KeptFollowsRequests(cfg, cluster, s.spec.node, false, s.spec.requests);
    if !SpecChanged(s, c) {
      forall i | 0 <= i < |c.spec.requests| ensures c.spec.requests[i] == s.spec.requests[i] {
        ExistingIsLast(s.spec.requests, i);
        assert !Differs(Existing(s.spec.requests), c.spec.requests[i]);
      }
    }
  }

  /** After one sync of an unchanged cluster, a second one has nothing to do. */
  lemma SyncReachesFixpoint(cfg: Config, defaults: Capacity, cluster: Cluster, s: Stored)
    requires UniqueUids(s.spec.requests)
    ensures var s' := Synced(cfg, defaults, cluster, s);
            var c' := Computed(cfg, defaults, cluster, s');
            && UniqueUids(s'.spec.requests)
            && !SpecChanged(s', c') && !StatusChanged(s', c')
            && Synced(cfg, defaults, cluster, s') == s'
  {
    var s' := Synced(cfg, defaults, cluster, s);
    var c, c' := Computed(cfg, defaults, cluster, s), Computed(cfg, defaults, cluster, s');
    UnchangedSpecIsSame(cfg, defaults, cluster, s);
    KeptIsUnique(cfg, cluster, s.spec.node, false, s.spec.requests);
    assert s'.spec.requests == c.spec.requests;
    assert c' == c by { RecomputeAgain(cfg, cluster, s.spec.node, false, s.spec.requests); }
    NothingDiffers(c.spec.requests);
  }

  lemma NothingDiffers(reqs: seq<Request>)
    requires UniqueUids(reqs)
    ensures forall i :: 0 <= i < |reqs| ==> !Differs(Existing(reqs), reqs[i])
  {
    forall i | 0 <= i < |reqs| ensures !Differs(Existing(reqs), reqs[i]) { ExistingIsLast(reqs, i); }
  }

  /** The two syncs do not undo each other: after one for a sibling's sake, which drops
      terminating pods, the node's own sync finds nothing to do. */
  lemma SiblingSyncSettles(cfg: Config, defaults: Capacity, cluster: Cluster, s: Stored)
    requires UniqueUids(s.spec.requests)
    ensures var s' := SiblingSynced(cfg, defaults, cluster, s);
            var c' := Computed(cfg, defaults, cluster, s');
            UniqueUids(s'.spec.requests) && c' == s' && !SpecChanged(s', c') && !StatusChanged(s', c')
  {
    var node, items := s.spec.node, Recompute(cfg, cluster, s.spec.node, true, s.spec.requests).items;
    var again := ToRequests(items);
    RecomputeAgain(cfg, cluster, node, true, s.spec.requests);
    LoopsDifferByTerminating(cfg, cluster, node, again);
    KeptFollowsRequests(cfg, cluster, node, false, again);
    KeptIsUnique(cfg, cluster, node, true, s.spec.requests);
    NothingDiffers(again);
  }

  /** Both syncs compute the same object exactly when no request is for a terminating pending pod. */
  lemma SyncsComputeTheSameIff(cfg: Config, defaults: Capacity, cluster: Cluster, s: Stored)
    ensures Computed(cfg, defaults, cluster, s) == SiblingSynced(cfg, defaults, cluster, s) <==>
            forall i :: 0 <= i < |s.spec.requests| ==> !IsTerminating(cfg, cluster, s.spec.node, s.spec.requests[i])
  {
    LoopsDifferByTerminating(cfg, cluster, s.spec.node, s.spec.requests);
    SomeTerminating(cfg, cluster, s.spec.node, s.spec.requests);
    if Computed(cfg, defaults, cluster, s) == SiblingSynced(cfg, defaults, cluster, s) {
      assert |Computed(cfg, defaults, cluster, s).spec.requests| ==
        |SiblingSynced(cfg, defaults, cluster, s).spec.requests|;
    }
  }

  ghost predicate NonNegativeRates(reqs: seq<Request>)
  {
    forall i :: 0 <= i < |reqs| ==> reqs[i].bandwidth.ul >= 0 && reqs[i].bandwidth.dl >= 0
  }

  lemma {:induction false} NetworkWithinLocal(reqs: seq<Request>)
    requires NonNegativeRates(reqs)
    ensures 0 <= NetworkSum(reqs).ul <= LocalSum(reqs).ul && 0 <= NetworkSum(reqs).dl <= LocalSum(reqs).dl
  {
    if reqs != [] {
      var n := |reqs| - 1;
      assert forall i :: 0 <= i < n ==> reqs[..n][i] == reqs[i];
      NetworkWithinLocal(reqs[..n]);
    }
  }

  /** Whatever a sync judges changed, what it leaves is what it computed, up to the reservations
      and up to defaults in the spec. */
  lemma SyncedRequests(cfg: Config, defaults: Capacity, cluster: Cluster, s: Stored)
    requires UniqueUids(s.spec.requests)
    ensures var s', c := Synced(cfg, defaults, cluster, s), Computed(cfg, defaults, cluster, s);
            && s'.spec.requests == ToRequests(Kept(cfg, cluster, s)) == c.spec.requests
            && s'.spec.node == s.spec.node
            && Defaulted(defaults, s'.spec.capacity) == c.spec.capacity
            && s'.status.(reservations := []) == c.status.(reservations := [])
  {
    UnchangedSpecIsSame(cfg, defaults, cluster, s);
  }

  /** Requests and reservations of a booking tell the same: names, UID, owner, the rate on the
      node, and on the network the same rate unless the pod is local. */
  lemma BookingMirrors(defaults: Capacity, spec: Spec, items: seq<Item>, k: nat)
    requires k < |items|
    ensures var b := Booking(defaults, spec, items);
            && |b.spec.requests| == |items| == |b.status.reservations|
            && var req, res, pod := b.spec.requests[k], b.status.reservations[k], items[k].pod;
               && req.podName == res.podName == pod.name && req.namespace == res.namespace == pod.namespace
               && req.podUid == res.podUid == pod.uid && res.workload == WorkloadOf(pod)
               && req.linkLocal == items[k].isLocal && req.bandwidth == res.bandwidth.local == items[k].rate
               && res.bandwidth.network == if req.linkLocal then Rate(0, 0) else req.bandwidth
  {
  }

  /** What a sync leaves stored, told from the cluster: the requests with a holder or a pending
      pod, in their order, under the names and with the rate of that pod. */
  lemma StoredByCluster(cfg: Config, defaults: Capacity, cluster: Cluster, s: Stored) returns (ps: seq<nat>)
    requires UniqueUids(s.spec.requests)
    ensures var reqs, kept := s.spec.requests, Synced(cfg, defaults, cluster, s).spec.requests;
            && |ps| == |kept| && (forall k, l :: 0 <= k < l < |ps| ==> ps[k] < ps[l])
            && (forall i :: 0 <= i < |reqs| ==> (i in ps <==> IsKept(cfg, cluster, s.spec.node, false, reqs[i])))
            && forall k :: 0 <= k < |ps| ==>
                 ps[k] < |reqs| && RewrittenAs(cfg, cluster, s.spec.node, reqs[ps[k]], kept[k])
  {
    SyncedRequests(cfg, defaults, cluster, s);
    var items := Kept(cfg, cluster, s);
    ps := KeptByCluster(cfg, cluster, s.spec.node, false, s.spec.requests);
    forall k | 0 <= k < |ps|
      ensures ps[k] < |s.spec.requests| &&
              RewrittenAs(cfg, cluster, s.spec.node, s.spec.requests[ps[k]], ToRequests(items)[k])
    {
      assert IsBooking(cfg, cluster, s.spec.node, s.spec.requests[ps[k]], items[k].pod, items[k].rate);
    }
  }

  ghost predicate RewrittenAs(cfg: Config, cluster: Cluster, node: string, req: Request, kept: Request)
  {
    exists pod :: IsBooking(cfg, cluster, node, req, pod, kept.bandwidth) &&
                  kept.podName == pod.name && kept.namespace == pod.namespace && kept.podUid == pod.uid
  }

  /** After a sync the stored usage is the sum over the stored requests, counting all of
      them locally and the non-local ones on the network; used and remaining make up the
      capacity; and the network carries no more than the node itself. */
  lemma SyncedUsageIsExact(cfg: Config, defaults: Capacity, cluster: Cluster, s: Stored)
    requires UniqueUids(s.spec.requests)
    ensures var s' := Synced(cfg, defaults, cluster, s);
            && s'.status.used == Capacity(LocalSum(s'.spec.requests), NetworkSum(s'.spec.requests))
            && Plus(s'.status.used.local, s'.status.remaining.local) == s'.status.capacity.local
            && Plus(s'.status.used.network, s'.status.remaining.network) == s'.status.capacity.network
            && s'.status.capacity == Defaulted(defaults, s'.spec.capacity) == Defaulted(defaults, s.spec.capacity)
            && s'.status.state == Created
            && (NonNegativeRates(s'.spec.requests) ==>
                  s'.status.used.network.ul <= s'.status.used.local.ul &&
                    s'.status.used.network.dl <= s'.status.used.local.dl)
  {
    var s' := Synced(cfg, defaults, cluster, s);
    SyncedRequests(cfg, defaults, cluster, s);
    SumsOfItems(Kept(cfg, cluster, s));
    if NonNegativeRates(s'.spec.requests) { NetworkWithinLocal(s'.spec.requests); }
  }

  /** The stored reservations are compared by number only: they are up to date after a
      sync exactly when something else in the status changed or they already were. */
  lemma ReservationsUpToDateIff(cfg: Config, defaults: Capacity, cluster: Cluster, s: Stored)
    ensures var c := Computed(cfg, defaults, cluster, s);
            Synced(cfg, defaults, cluster, s).status.reservations == c.status.reservations <==>
            StatusChanged(s, c) || s.status.reservations == c.status.reservations
  {
  }

  /** They can stay stale: a pod that replaced another of the same rate is charged, while the
      reservations still name its predecessor. */
  lemma StaleReservationRemains(cfg: Config, defaults: Capacity, spec: Spec, pod: ClusterPod, stale: Reservation)
    requires IsHolder(cfg, spec.node, pod) && stale.podUid != pod.uid
    requires spec.requests ==
             [Request(pod.name, pod.namespace, pod.uid, AllLocal([pod], pod.namespace, WorkloadOf(pod), spec.node),
                                       RateOf(cfg, pod.annotations))]
    ensures var isLocal := AllLocal([pod], pod.namespace, WorkloadOf(pod), spec.node);
            var item := Item(pod, RateOf(cfg, pod.annotations), isLocal);
            var s := Stored(spec, Booking(defaults, spec, [item]).status.(reservations := [stale]));
            && Computed(cfg, defaults, [pod], s) == Booking(defaults, spec, [item])
            && Synced(cfg, defaults, [pod], s) == s
            && s.status.reservations != Computed(cfg, defaults, [pod], s).status.reservations
  {
    var item := Item(pod, RateOf(cfg, pod.annotations), AllLocal([pod], pod.namespace, WorkloadOf(pod), spec.node));
    var s := Stored(spec, Booking(defaults, spec, [item]).status.(reservations := [stale]));
    assert Holders(cfg, [pod], spec.node) == map[pod.uid := pod];
    assert Resolve(cfg, [pod], spec.node, false, spec.requests[0]) == Some((pod, item.rate));
    assert spec.requests[..0] == [];
    assert Recompute(cfg, [pod], spec.node, false, spec.requests[..0]) == Tally([], map[]);
    assert AddItem([pod], spec.node, Tally([], map[]), pod, item.rate).items == [] + [item] == [item];
    assert Kept(cfg, [pod], s) == [item];
    assert ToRequests([item]) == spec.requests;
    NothingDiffers(spec.requests);
    assert ToReservations([item])[0].podUid == pod.uid;
  }

  // ---- Admission ----

  datatype Step =
    | Reserve(podName: string, namespace: string, podUid: string, rate: Rate)
    | Unreserve(podUid: string)
    | Sync(cluster: Cluster)
    | SiblingSync(cluster: Cluster)

  ghost function Next(cfg: Config, defaults: Capacity, s: Stored, step: Step): Stored
  {
    match step
    case Reserve(p, n, u, rate) =>
      if rate == Rate(0, 0) then s
      else s.(spec := s.spec.(requests := Without(s.spec.requests, u) + [Request(p, n, u, false, rate)]))
    case Unreserve(u) => s.(spec := s.spec.(requests := Without(s.spec.requests, u)))
    case Sync(cluster) => Synced(cfg, defaults, cluster, s)
    case SiblingSync(cluster) => SiblingSynced(cfg, defaults, cluster, s)
  }

  /** A reservation of nothing writes nothing; any other puts the pod's request last and keeps
      exactly the other pods' requests; an un-reservation keeps exactly those. */
  lemma ReservationsInWords(cfg: Config, defaults: Capacity, s: Stored, e: Step, r: Request)
    requires e.Reserve? || e.Unreserve?
    ensures var t := Next(cfg, defaults, s, e);
            && t.status == s.status && t.spec.node == s.spec.node && t.spec.capacity == s.spec.capacity
            && (e.Reserve? && e.rate == Rate(0, 0) ==> t == s)
            && (e.Unreserve? ==> (r in t.spec.requests <==> r in s.spec.requests && r.podUid != e.podUid))
            && (e.Reserve? && e.rate != Rate(0, 0) ==>
                  var n := |t.spec.requests| - 1;
                  && n >= 0 && t.spec.requests[n] == Request(e.podName, e.namespace, e.podUid, false, e.rate)
                  && (r in t.spec.requests[..n] <==> r in s.spec.requests && r.podUid != e.podUid))
  {
    WithoutIsFilter(s.spec.requests, e.podUid, r);
    var w := Without(s.spec.requests, e.podUid);
    if e.Reserve? {
      assert (w + [Request(e.podName, e.namespace, e.podUid, false, e.rate)])[..|w|] == w;
    }
  }

  /** The stored remaining local bandwidth is what the present requests leave. */
  ghost predicate InSync(defaults: Capacity, s: Stored)
  {
    s.status.remaining.local == Minus(Defaulted(defaults, s.spec.capacity).local, LocalSum(s.spec.requests))
  }

  /** What the local capacity leaves beside the requests of all pods but this one. */
  ghost function Headroom(defaults: Capacity, s: Stored, uid: string): Rate
  {
    Minus(Defaulted(defaults, s.spec.capacity).local, LocalSum(Without(s.spec.requests, uid)))
  }

  function Smaller(a: int, b: int): int { if a < b then a else b }

  /** The largest rate that the filter lets through. */
  function Offered(s: Stored): Rate
  {
    Rate(Smaller(s.status.remaining.local.ul, s.status.remaining.network.ul),
         Smaller(s.status.remaining.local.dl, s.status.remaining.network.dl))
  }

  /** The filter lets a pod with this rate onto the node. */
  predicate Admits(s: Stored, rate: Rate)
  {
    rate.ul >= 0 && rate.dl >= 0 && s.status.state == Created && Suffices(s.status.remaining, rate)
  }

  /** The stored status offers the pod nothing, or no more than there is room for. */
  ghost predicate OffersSafely(defaults: Capacity, s: Stored, uid: string)
  {
    var top, room := Offered(s), Headroom(defaults, s, uid);
    s.status.state != Created || top.ul < 0 || top.dl < 0 || (top.ul <= room.ul && top.dl <= room.dl)
  }

  /** Pods found by a sync still ask for the bandwidth that was reserved for them. */
  ghost predicate RatesKept(cfg: Config, cluster: Cluster, s: Stored)
  {
    forall i :: 0 <= i < |s.spec.requests| ==>
      var r := Resolve(cfg, cluster, s.spec.node, false, s.spec.requests[i]);
      r.Some? ==> r.value.1 == s.spec.requests[i].bandwidth
  }

  /** A step as the scheduler and the operator take it: an admission passed the filter
      against a status that does not offer more than there is room for. */
  ghost predicate Legal(cfg: Config, defaults: Capacity, s: Stored, step: Step)
  {
    match step
    case Reserve(_, _, uid, rate) => Admits(s, rate) && OffersSafely(defaults, s, uid)
    case Unreserve(_) => true
    case Sync(cluster) => RatesKept(cfg, cluster, s)
    case SiblingSync(cluster) => RatesKept(cfg, cluster, s)
  }

  ghost predicate NotOversubscribed(defaults: Capacity, s: Stored)
  {
    && UniqueUids(s.spec.requests) && NonNegativeRates(s.spec.requests)
    && LocalSum(s.spec.requests).ul <= Defaulted(defaults, s.spec.capacity).local.ul
    && LocalSum(s.spec.requests).dl <= Defaulted(defaults, s.spec.capacity).local.dl
  }

  lemma {:induction false} WithoutMembers(reqs: seq<Request>, uid: string, i: nat) returns (j: nat)
    requires i < |Without(reqs, uid)|
    ensures j < |reqs| && reqs[j] == Without(reqs, uid)[i] && reqs[j].podUid != uid
  {
    var n := |reqs| - 1;
    var w := Without(reqs[..n], uid);
    if i < |w| {
      j := WithoutMembers(reqs[..n], uid, i);
    } else {
      j := n;
    }
  }

  lemma {:induction false} WithoutIsUnique(reqs: seq<Request>, uid: string)
    requires UniqueUids(reqs)
    ensures UniqueUids(Without(reqs, uid))
  {
    if reqs != [] {
      var n := |reqs| - 1;
      WithoutIsUnique(reqs[..n], uid);
      var w := Without(reqs[..n], uid);
      forall i | 0 <= i < |w| ensures w[i].podUid != reqs[n].podUid {
        var j := WithoutMembers(reqs[..n], uid, i);
      }
    }
  }

  lemma {:induction false} WithoutSumsLess(reqs: seq<Request>, uid: string)
    requires NonNegativeRates(reqs)
    ensures LocalSum(Without(reqs, uid)).ul <= LocalSum(reqs).ul && LocalSum(Without(reqs, uid)).dl <= LocalSum(reqs).dl
  {
    if reqs != [] {
      var n := |reqs| - 1;
      assert forall i :: 0 <= i < n ==> reqs[..n][i] == reqs[i];
      WithoutSumsLess(reqs[..n], uid);
      SumAppend(Without(reqs[..n], uid), reqs[n]);
    }
  }

  lemma SumAppend(w: seq<Request>, r: Request)
    ensures LocalSum(w + [r]) == Plus(LocalSum(w), r.bandwidth)
  {
    assert (w + [r])[..|w|] == w;
  }

  lemma WithoutFacts(reqs: seq<Request>, uid: string)
    requires NonNegativeRates(reqs) && UniqueUids(reqs)
    ensures var w := Without(reqs, uid);
            && NonNegativeRates(w) && UniqueUids(w)
            && (forall i :: 0 <= i < |w| ==> w[i].podUid != uid)
            && LocalSum(w).ul <= LocalSum(reqs).ul && LocalSum(w).dl <= LocalSum(reqs).dl
  {
    WithoutIsUnique(reqs, uid);
    WithoutSumsLess(reqs, uid);
    var w := Without(reqs, uid);
    forall i | 0 <= i < |w| ensures w[i].podUid != uid && w[i].bandwidth.ul >= 0 && w[i].bandwidth.dl >= 0 {
      var j := WithoutMembers(reqs, uid, i);
    }
  }

  lemma {:induction false} KeptUsesLess(cfg: Config, cluster: Cluster, node: string, strict: bool, reqs: seq<Request>)
    requires NonNegativeRates(reqs)
    requires forall i :: 0 <= i < |reqs| ==>
               var r := Resolve(cfg, cluster, node, strict, reqs[i]); r.Some? ==> r.value.1 == reqs[i].bandwidth
    ensures var items := Recompute(cfg, cluster, node, strict, reqs).items;
            && NonNegativeRates(ToRequests(items))
            && LocalUsed(items).ul <= LocalSum(reqs).ul && LocalUsed(items).dl <= LocalSum(reqs).dl
  {
    if reqs != [] {
      var n := |reqs| - 1;
      assert forall i :: 0 <= i < n ==> reqs[..n][i] == reqs[i];
      KeptUsesLess(cfg, cluster, node, strict, reqs[..n]);
      RecomputeStep(cfg, cluster, node, strict, reqs);
      var items := Recompute(cfg, cluster, node, strict, reqs[..n]).items;
      var more := Recompute(cfg, cluster, node, strict, reqs).items;
      if |more| > |items| { UseGrows(items, more); }
    }
  }

  lemma UseGrows(items: seq<Item>, more: seq<Item>)
    requires |more| == |items| + 1 && more[..|items|] == items && NonNegativeRates(ToRequests(items))
    ensures LocalUsed(more) == Plus(LocalUsed(items), more[|items|].rate)
    ensures more[|items|].rate.ul >= 0 && more[|items|].rate.dl >= 0 ==> NonNegativeRates(ToRequests(more))
  {
    forall i | 0 <= i < |items| ensures ToRequests(more)[i] == ToRequests(items)[i] { assert more[i] == items[i]; }
  }

  lemma AppendRequest(w: seq<Request>, r: Request)
    requires UniqueUids(w) && NonNegativeRates(w) && forall i :: 0 <= i < |w| ==> w[i].podUid != r.podUid
    requires r.bandwidth.ul >= 0 && r.bandwidth.dl >= 0
    ensures UniqueUids(w + [r]) && NonNegativeRates(w + [r]) && LocalSum(w + [r]) == Plus(LocalSum(w), r.bandwidth)
  {
    var v := w + [r];
    SumAppend(w, r);
    assert forall i :: 0 <= i < |w| ==> v[i] == w[i];
    assert v[|w|] == r;
  }

  lemma StepKeepsLocalBound(cfg: Config, defaults: Capacity, s: Stored, step: Step)
    requires NotOversubscribed(defaults, s) && Legal(cfg, defaults, s, step)
    ensures NotOversubscribed(defaults, Next(cfg, defaults, s, step))
  {
    match step
    case Reserve(p, n, u, rate) =>
      WithoutFacts(s.spec.requests, u);
      AppendRequest(Without(s.spec.requests, u), Request(p, n, u, false, rate));
    case Unreserve(u) =>
      WithoutFacts(s.spec.requests, u);
    case Sync(cluster) =>
      KeptUsesLess(cfg, cluster, s.spec.node, false, s.spec.requests);
      KeptIsUnique(cfg, cluster, s.spec.node, false, s.spec.requests);
      SumsOfItems(Kept(cfg, cluster, s));
      UnchangedSpecIsSame(cfg, defaults, cluster, s);
    case SiblingSync(cluster) =>
      KeptUsesLess(cfg, cluster, s.spec.node, true, s.spec.requests);
      KeptIsUnique(cfg, cluster, s.spec.node, true, s.spec.requests);
      SumsOfItems(Recompute(cfg, cluster, s.spec.node, true, s.spec.requests).items);
  }

  ghost function After(cfg: Config, defaults: Capacity, s: Stored, steps: seq<Step>): Stored
  {
    if steps == [] then s else Next(cfg, defaults, After(cfg, defaults, s, steps[..|steps| - 1]), steps[|steps| - 1])
  }

  ghost predicate LegalRun(cfg: Config, defaults: Capacity, s: Stored, steps: seq<Step>)
  {
    steps != [] ==>
      var n := |steps| - 1;
      LegalRun(cfg, defaults, s, steps[..n]) && Legal(cfg, defaults, After(cfg, defaults, s, steps[..n]), steps[n])
  }

  /** In every legal run, whatever the interleaving of admissions, failed bindings,
      finished pods and syncs of both kinds, the local bandwidth of the node is never oversubscribed
      and no pod has two requests. */
  lemma {:induction false} LocalBandwidthIsNeverOversubscribed(cfg: Config, defaults: Capacity, s: Stored,
      steps: seq<Step>)
    requires NotOversubscribed(defaults, s) && LegalRun(cfg, defaults, s, steps)
    ensures NotOversubscribed(defaults, After(cfg, defaults, s, steps))
  {
    if steps != [] {
      var n := |steps| - 1;
      LocalBandwidthIsNeverOversubscribed(cfg, defaults, s, steps[..n]);
      StepKeepsLocalBound(cfg, defaults, After(cfg, defaults, s, steps[..n]), steps[n]);
    }
  }

  /** A sync is what puts the status in step with the requests. */
  lemma SyncPutsInSync(cfg: Config, defaults: Capacity, cluster: Cluster, s: Stored)
    requires UniqueUids(s.spec.requests)
    ensures InSync(defaults, Synced(cfg, defaults, cluster, s))
  {
    SyncedUsageIsExact(cfg, defaults, cluster, s);
  }

  /** Every admission of a pod keeps the bound exactly when the stored status offers it nothing,
      or no more than there is room for. */
  lemma AdmissionsAreSafeIff(cfg: Config, defaults: Capacity, s: Stored, podName: string, namespace: string,
                             uid: string)
    requires NotOversubscribed(defaults, s)
    ensures (forall rate: Rate :: Admits(s, rate) ==>
               NotOversubscribed(defaults, Next(cfg, defaults, s, Reserve(podName, namespace, uid, rate)))) <==>
            OffersSafely(defaults, s, uid)
  {
    if OffersSafely(defaults, s, uid) {
      forall rate | Admits(s, rate)
        ensures NotOversubscribed(defaults, Next(cfg, defaults, s, Reserve(podName, namespace, uid, rate)))
      {
        StepKeepsLocalBound(cfg, defaults, s, Reserve(podName, namespace, uid, rate));
      }
    } else {
      var top := Offered(s);
      assert Admits(s, top);
      WithoutFacts(s.spec.requests, uid);
      SumAppend(Without(s.spec.requests, uid), Request(podName, namespace, uid, false, top));
      assert !NotOversubscribed(defaults, Next(cfg, defaults, s, Reserve(podName, namespace, uid, top)));
    }
  }

  /** The stored status shows no more local bandwidth than the present requests leave. */
  ghost predicate Understated(defaults: Capacity, s: Stored)
  {
    var left := Minus(Defaulted(defaults, s.spec.capacity).local, LocalSum(s.spec.requests));
    s.status.remaining.local.ul <= left.ul && s.status.remaining.local.dl <= left.dl
  }

  /** Such a status is safe for every pod, syncs bring it about and removals keep it. */
  lemma UnderstatedIsSafe(defaults: Capacity, s: Stored, uid: string)
    requires NotOversubscribed(defaults, s) && Understated(defaults, s)
    ensures OffersSafely(defaults, s, uid)
  {
    WithoutFacts(s.spec.requests, uid);
  }

  lemma UnderstatedAfter(cfg: Config, defaults: Capacity, s: Stored, step: Step)
    requires NotOversubscribed(defaults, s)
    requires match step
             case Reserve(_, _, _, _) => false
             case Unreserve(_) => Understated(defaults, s)
             case Sync(_) => true
             case SiblingSync(_) => true
    ensures Understated(defaults, Next(cfg, defaults, s, step))
  {
    match step
    case Unreserve(u) => WithoutFacts(s.spec.requests, u);
    case Sync(cluster) => SyncPutsInSync(cfg, defaults, cluster, s);
    case SiblingSync(cluster) => SumsOfItems(Recompute(cfg, cluster, s.spec.node, true, s.spec.requests).items);
  }

  /** An admission was made after the last sync. */
  ghost predicate Unsynced(steps: seq<Step>)
  {
    steps != [] &&
    match steps[|steps| - 1]
    case Reserve(_, _, _, _) => true
    case Unreserve(_) => Unsynced(steps[..|steps| - 1])
    case Sync(_) => false
    case SiblingSync(_) => false
  }

  /** Admissions pass the filter and are apart: between any two of them there is a sync. */
  ghost predicate Paced(cfg: Config, defaults: Capacity, s: Stored, steps: seq<Step>)
  {
    steps != [] ==>
      var n := |steps| - 1;
      && Paced(cfg, defaults, s, steps[..n])
      && PacedStep(cfg, After(cfg, defaults, s, steps[..n]), steps[..n], steps[n])
  }

  ghost predicate PacedStep(cfg: Config, s: Stored, earlier: seq<Step>, step: Step)
  {
    match step
    case Reserve(_, _, _, rate) => Admits(s, rate) && !Unsynced(earlier)
    case Unreserve(_) => true
    case Sync(cluster) => RatesKept(cfg, cluster, s)
    case SiblingSync(cluster) => RatesKept(cfg, cluster, s)
  }

  /** A sync between admissions is enough: such runs never oversubscribe the node, whatever
      removals, failed bindings and finished pods come between. */
  lemma {:induction false} PacedRunsAreSafe(cfg: Config, defaults: Capacity, s: Stored, steps: seq<Step>)
    requires NotOversubscribed(defaults, s) && Understated(defaults, s) && Paced(cfg, defaults, s, steps)
    ensures NotOversubscribed(defaults, After(cfg, defaults, s, steps))
    ensures !Unsynced(steps) ==> Understated(defaults, After(cfg, defaults, s, steps))
  {
    if steps != [] {
      var n := |steps| - 1;
      PacedRunsAreSafe(cfg, defaults, s, steps[..n]);
      PacedStepIsSafe(cfg, defaults, After(cfg, defaults, s, steps[..n]), steps[..n], steps[n]);
      assert steps[..n] + [steps[n]] == steps;
    }
  }

  lemma PacedStepIsSafe(cfg: Config, defaults: Capacity, t: Stored, earlier: seq<Step>, step: Step)
    requires NotOversubscribed(defaults, t) && (!Unsynced(earlier) ==> Understated(defaults, t))
    requires PacedStep(cfg, t, earlier, step)
    ensures NotOversubscribed(defaults, Next(cfg, defaults, t, step))
    ensures !Unsynced(earlier + [step]) ==> Understated(defaults, Next(cfg, defaults, t, step))
  {
    if step.Reserve? { UnderstatedIsSafe(defaults, t, step.podUid); }
    StepKeepsLocalBound(cfg, defaults, t, step);
    assert (earlier + [step])[..|earlier|] == earlier;
    if !Unsynced(earlier + [step]) { UnderstatedAfter(cfg, defaults, t, step); }
  }

  /** A status that overstates what is left is not safe: two admissions on one stale status take
      the capacity twice. */
  lemma StaleStatusOversubscribes(cfg: Config, defaults: Capacity, s: Stored, a: Step, b: Step)
    requires a.Reserve? && b.Reserve? && a.podUid != b.podUid
    requires s.spec.requests == [] && NotOversubscribed(defaults, s) && InSync(defaults, s)
    requires Admits(s, a.rate) && a.rate == b.rate == Defaulted(defaults, s.spec.capacity).local && a.rate.ul > 0
    ensures var s1 := Next(cfg, defaults, s, a);
            && Legal(cfg, defaults, s, a)
            && Admits(s1, b.rate) && !InSync(defaults, s1) && !OffersSafely(defaults, s1, b.podUid)
            && !NotOversubscribed(defaults, Next(cfg, defaults, s1, b))
  {
    var s1 := Next(cfg, defaults, s, a);
    UnderstatedIsSafe(defaults, s, a.podUid);
    ReserveNew(cfg, defaults, s, a);
    assert s1.spec.requests == [Request(a.podName, a.namespace, a.podUid, false, a.rate)];
    TooMuch(cfg, defaults, s1, b);
  }

  /** Admitting more uplink than there is left. */
  lemma TooMuch(cfg: Config, defaults: Capacity, s: Stored, e: Step)
    requires e.Reserve? && Admits(s, e.rate)
    requires forall i :: 0 <= i < |s.spec.requests| ==> s.spec.requests[i].podUid != e.podUid
    requires e.rate.ul > 0 && LocalSum(s.spec.requests).ul + e.rate.ul > Defaulted(defaults, s.spec.capacity).local.ul
    ensures !OffersSafely(defaults, s, e.podUid) && !NotOversubscribed(defaults, Next(cfg, defaults, s, e))
  {
    ReserveNew(cfg, defaults, s, e);
    WithoutAbsent(s.spec.requests, e.podUid);
  }

  lemma ReserveNew(cfg: Config, defaults: Capacity, s: Stored, e: Step)
    requires e.Reserve? && e.rate != Rate(0, 0)
    requires forall i :: 0 <= i < |s.spec.requests| ==> s.spec.requests[i].podUid != e.podUid
    ensures var t := Next(cfg, defaults, s, e);
            && t == s.(spec := s.spec.(requests :=
                 s.spec.requests + [Request(e.podName, e.namespace, e.podUid, false, e.rate)]))
            && LocalSum(t.spec.requests) == Plus(LocalSum(s.spec.requests), e.rate)
  {
    WithoutAbsent(s.spec.requests, e.podUid);
    SumAppend(s.spec.requests, Request(e.podName, e.namespace, e.podUid, false, e.rate));
  }

  /** The holder's annotations and the request's rate both come from one extraction by the scheduler. */
  ghost predicate CameFromExtraction(cfg: Config, annotations: Annotations, rate: Rate)
  {
    exists a :: Extract(cfg, a) == Extracted(rate, annotations)
  }

  /** Pods admitted by the scheduler keep the rates reserved for them: the operator reads
      them back from the annotations that the scheduler left. */
  lemma AdmittedRatesAreKept(cfg: Config, cluster: Cluster, s: Stored)
    requires Sound(cfg)
    requires forall i :: 0 <= i < |s.spec.requests| ==>
               var req, holders := s.spec.requests[i], Holders(cfg, cluster, s.spec.node);
               req.podUid in holders ==> CameFromExtraction(cfg, holders[req.podUid].annotations, req.bandwidth)
    ensures RatesKept(cfg, cluster, s)
  {
    forall i | 0 <= i < |s.spec.requests|
      ensures var r := Resolve(cfg, cluster, s.spec.node, false, s.spec.requests[i]);
              r.Some? ==> r.value.1 == s.spec.requests[i].bandwidth
    {
      var req := s.spec.requests[i];
      var holders := Holders(cfg, cluster, s.spec.node);
      if req.podUid in holders {
        var a :| Extract(cfg, a) == Extracted(req.bandwidth, holders[req.podUid].annotations);
        OperatorReadsWhatWasReserved(cfg, a);
      }
    }
  }
}
