/** Pods as the preemption and quota plugins see them, and the resource request
    that a pod is charged for. */
module Pods {
  import opened Options
  import opened Resources

  datatype Pod = Pod(
    uid: string,
    namespace: string,
    name: string,
    priority: int,
    startTime: int,
    labels: map<string, string>,
    priorityClassName: string,
    scheduledAt: Option<int>,
    containers: seq<Resource>,
    initContainers: seq<Resource>,
    overhead: Option<Resource>)

  /** MoreImportantPod: higher priority first, then the longer running pod. */
  predicate MoreImportant(a: Pod, b: Pod)
  {
    a.priority > b.priority || (a.priority == b.priority && a.startTime < b.startTime)
  }

  function SumOf(cs: seq<Resource>): Resource
  {
    if cs == [] then ZERO else Plus(SumOf(cs[..|cs| - 1]), cs[|cs| - 1])
  }

  function RaiseBy(base: Resource, cs: seq<Resource>): Resource
  {
    if cs == [] then base else Raise(RaiseBy(base, cs[..|cs| - 1]), cs[|cs| - 1])
  }

  function WithOverhead(r: Resource, overhead: Option<Resource>): Resource
  {
    if overhead.Some? then Plus(r, overhead.value) else r
  }

  function Request(p: Pod): Resource
  {
    WithOverhead(RaiseBy(SumOf(p.containers), p.initContainers), p.overhead)
  }

  /** computePodResourceRequest */
  method ComputePodResourceRequest(p: Pod) returns (r: Resource)
    ensures r == Request(p)
  {
    r := ZERO;
    for i := 0 to |p.containers|
      invariant r == SumOf(p.containers[..i])
    {
      assert p.containers[..i + 1][..i] == p.containers[..i];
      r := Plus(r, p.containers[i]);
    }
    assert p.containers[..|p.containers|] == p.containers;
    for i := 0 to |p.initContainers|
      invariant r == RaiseBy(SumOf(p.containers), p.initContainers[..i])
    {
      assert p.initContainers[..i + 1][..i] == p.initContainers[..i];
      r := Raise(r, p.initContainers[i]);
    }
    assert p.initContainers[..|p.initContainers|] == p.initContainers;
    if p.overhead.Some? {
      r := Plus(r, p.overhead.value);
    }
  }

  ghost function Total(cs: seq<Resource>, d: Dimension): int
  {
    if cs == [] then 0 else Amount(cs[0], d) + Total(cs[1..], d)
  }

  lemma {:induction false} SumOfIsTotal(cs: seq<Resource>, d: Dimension)
    ensures Amount(SumOf(cs), d) == Total(cs, d)
  {
    if cs != [] {
      var n := |cs| - 1;
      SumOfIsTotal(cs[..n], d);
      TotalAppend(cs[..n], cs[n], d);
      assert cs[..n] + [cs[n]] == cs;
    }
  }

  lemma {:induction false} TotalAppend(cs: seq<Resource>, c: Resource, d: Dimension)
    ensures Total(cs + [c], d) == Total(cs, d) + Amount(c, d)
  {
    if cs == [] {
      assert cs + [c] == [c];
      assert Total([c], d) == Amount(c, d) + Total([], d);
    } else {
      TotalAppend(cs[1..], c, d);
      assert (cs + [c])[1..] == cs[1..] + [c];
    }
  }

  lemma {:induction false} RaiseByIsLeastBound(base: Resource, cs: seq<Resource>, d: Dimension, m: int)
    requires d != PodNumber
    ensures Amount(RaiseBy(base, cs), d) >= Amount(base, d)
    ensures forall i :: 0 <= i < |cs| && Listed(cs[i], d) ==> Amount(RaiseBy(base, cs), d) >= Amount(cs[i], d)
    ensures m >= Amount(base, d) && (forall i :: 0 <= i < |cs| && Listed(cs[i], d) ==> m >= Amount(cs[i], d))
            ==> m >= Amount(RaiseBy(base, cs), d)
  {
    if cs != [] {
      var n := |cs| - 1;
      RaiseByIsLeastBound(base, cs[..n], d, m);
      assert forall i :: 0 <= i < n ==> cs[..n][i] == cs[i];
    }
  }

  /** The charged request is the least vector that covers all app containers
      running together and each init container running alone, plus overhead. */
  lemma RequestIsLeastCover(p: Pod, d: Dimension, m: int)
    requires d != PodNumber
    ensures var extra := if p.overhead.Some? then Amount(p.overhead.value, d) else 0;
            var r := Amount(Request(p), d) - extra;
            && r >= Total(p.containers, d)
            && (forall i :: 0 <= i < |p.initContainers| && Listed(p.initContainers[i], d) ==>
                  r >= Amount(p.initContainers[i], d))
            && (m >= Total(p.containers, d) &&
                (forall i :: 0 <= i < |p.initContainers| && Listed(p.initContainers[i], d) ==>
                   m >= Amount(p.initContainers[i], d))
                ==> m >= r)
  {
    SumOfIsTotal(p.containers, d);
    RaiseByIsLeastBound(SumOf(p.containers), p.initContainers, d, m);
  }

  /** Init containers do not count towards the number of pods. */
  lemma {:induction false} RaiseKeepsPodNumber(base: Resource, cs: seq<Resource>)
    ensures Amount(RaiseBy(base, cs), PodNumber) == Amount(base, PodNumber)
  {
    if cs != [] { RaiseKeepsPodNumber(base, cs[..|cs| - 1]); }
  }

  lemma RequestedPodNumber(p: Pod)
    ensures Amount(Request(p), PodNumber) ==
            Total(p.containers, PodNumber) + if p.overhead.Some? then Amount(p.overhead.value, PodNumber) else 0
  {
    SumOfIsTotal(p.containers, PodNumber);
    RaiseKeepsPodNumber(SumOf(p.containers), p.initContainers);
  }

  lemma {:induction false} NonNegativeParts(base: Resource, cs: seq<Resource>)
    requires NonNegative(base) && forall i :: 0 <= i < |cs| ==> NonNegative(cs[i])
    ensures NonNegative(SumOf(cs)) && NonNegative(RaiseBy(base, cs))
  {
    if cs != [] {
      var n := |cs| - 1;
      NonNegativeParts(base, cs[..n]);
      assert NonNegative(cs[n]);
      var before := RaiseBy(base, cs[..n]);
      assert forall d :: Amount(before, d) >= 0 && Amount(cs[n], d) >= 0;
    }
  }

  /** Containers with non-negative requests make a non-negative charge. */
  lemma RequestNonNegative(p: Pod)
    requires forall i :: 0 <= i < |p.containers| ==> NonNegative(p.containers[i])
    requires forall i :: 0 <= i < |p.initContainers| ==> NonNegative(p.initContainers[i])
    requires p.overhead.Some? ==> NonNegative(p.overhead.value)
    ensures NonNegative(Request(p))
  {
    NonNegativeParts(ZERO, p.containers);
    NonNegativeParts(SumOf(p.containers), p.initContainers);
    var r := RaiseBy(SumOf(p.containers), p.initContainers);
    assert forall d :: Amount(r, d) >= 0;
  }
}
