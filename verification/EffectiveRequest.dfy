/** The effective request of a pod: for each resource, the larger of what its app
    containers need together and what any one init container needs. */
module EffectiveRequest {

  type ResourceList = map<string, nat>

  datatype TopologyPod = TopologyPod(
    namespace: string,
    name: string,
    initContainers: seq<ResourceList>,
    containers: seq<ResourceList>)

  function Quantity(r: ResourceList, name: string): nat
  {
    if name in r then r[name] else 0
  }

  function Larger(a: nat, b: nat): nat { if a < b then b else a }

  function MergeMax(acc: ResourceList, r: ResourceList): ResourceList
  {
    map n | n in acc.Keys + r.Keys :: Larger(Quantity(acc, n), Quantity(r, n))
  }

  function MergeSum(acc: ResourceList, r: ResourceList): ResourceList
  {
    map n | n in acc.Keys + r.Keys :: Quantity(acc, n) + Quantity(r, n)
  }

  method RaiseTo(acc: ResourceList, r: ResourceList) returns (out: ResourceList)
    ensures out == MergeMax(acc, r)
  {
    out := acc;
    var names := r.Keys;
    while names != {}
      invariant names <= r.Keys && out.Keys == acc.Keys + (r.Keys - names)
      invariant forall n :: n in out ==>
                  out[n] == if n in names then Quantity(acc, n) else Larger(Quantity(acc, n), Quantity(r, n))
      decreases names
    {
      var n :| n in names;
      if !(n in out && r[n] <= out[n]) {
        out := out[n := r[n]];
      }
      names := names - {n};
    }
  }

  method AddTo(acc: ResourceList, r: ResourceList) returns (out: ResourceList)
    ensures out == MergeSum(acc, r)
  {
    out := acc;
    var names := r.Keys;
    while names != {}
      invariant names <= r.Keys && out.Keys == acc.Keys + (r.Keys - names)
      invariant forall n :: n in out ==>
                  out[n] == Quantity(acc, n) + if n in names then 0 else Quantity(r, n)
      decreases names
    {
      var n :| n in names;
      out := out[n := if n in out then r[n] + out[n] else r[n]];
      names := names - {n};
    }
  }

  function Peak(cs: seq<ResourceList>): ResourceList
  {
    if cs == [] then map[] else MergeMax(Peak(cs[..|cs| - 1]), cs[|cs| - 1])
  }

  function Together(cs: seq<ResourceList>): ResourceList
  {
    if cs == [] then map[] else MergeSum(Together(cs[..|cs| - 1]), cs[|cs| - 1])
  }

  function Effective(p: TopologyPod): ResourceList
  {
    MergeMax(Together(p.containers), Peak(p.initContainers))
  }

  method GetPodEffectiveRequest(p: TopologyPod) returns (resources: ResourceList)
    ensures resources == Effective(p)
  {
    var initResources := map[];
    for i := 0 to |p.initContainers|
      invariant initResources == Peak(p.initContainers[..i])
    {
      assert p.initContainers[..i + 1][..i] == p.initContainers[..i];
      initResources := RaiseTo(initResources, p.initContainers[i]);
    }
    assert p.initContainers[..|p.initContainers|] == p.initContainers;
    resources := map[];
    for i := 0 to |p.containers|
      invariant resources == Together(p.containers[..i])
    {
      assert p.containers[..i + 1][..i] == p.containers[..i];
      resources := AddTo(resources, p.containers[i]);
    }
    assert p.containers[..|p.containers|] == p.containers;
    resources := RaiseTo(resources, initResources);
  }

  ghost function Total(cs: seq<ResourceList>, name: string): nat
  {
    if cs == [] then 0 else Quantity(cs[0], name) + Total(cs[1..], name)
  }

  lemma {:induction false} TotalAppend(cs: seq<ResourceList>, c: ResourceList, name: string)
    ensures Total(cs + [c], name) == Total(cs, name) + Quantity(c, name)
  {
    if cs == [] {
      assert Total([c], name) == Quantity(c, name) + Total([], name);
      assert cs + [c] == [c];
    } else {
      TotalAppend(cs[1..], c, name);
      assert (cs + [c])[1..] == cs[1..] + [c];
    }
  }

  lemma {:induction false} TogetherIsTotal(cs: seq<ResourceList>, name: string)
    ensures Quantity(Together(cs), name) == Total(cs, name)
  {
    if cs != [] {
      var n := |cs| - 1;
      TogetherIsTotal(cs[..n], name);
      TotalAppend(cs[..n], cs[n], name);
      assert cs[..n] + [cs[n]] == cs;
    }
  }

  lemma {:induction false} PeakIsLeastBound(cs: seq<ResourceList>, name: string, m: nat)
    ensures forall i :: 0 <= i < |cs| ==> Quantity(Peak(cs), name) >= Quantity(cs[i], name)
    ensures (forall i :: 0 <= i < |cs| ==> m >= Quantity(cs[i], name)) ==> m >= Quantity(Peak(cs), name)
  {
    if cs != [] {
      var n := |cs| - 1;
      PeakIsLeastBound(cs[..n], name, m);
      assert forall i :: 0 <= i < n ==> cs[..n][i] == cs[i];
    }
  }

  /** The effective request is the least one that covers the app containers running
      together and every init container running alone. */
  lemma EffectiveIsLeastCover(p: TopologyPod, name: string, m: nat)
    ensures Quantity(Effective(p), name) >= Total(p.containers, name)
    ensures forall i :: 0 <= i < |p.initContainers| ==>
              Quantity(Effective(p), name) >= Quantity(p.initContainers[i], name)
    ensures m >= Total(p.containers, name) &&
            (forall i :: 0 <= i < |p.initContainers| ==> m >= Quantity(p.initContainers[i], name))
            ==> m >= Quantity(Effective(p), name)
  {
    TogetherIsTotal(p.containers, name);
    PeakIsLeastBound(p.initContainers, name, m);
  }
}
