/** The least-NUMA score: the fewest NUMA nodes that can hold a request and, among
    those, the ones closest to each other. Averages are exact reals here. */
module LeastNuma {
  import opened Options
  import opened EffectiveRequest
  import opened NumaNodes
  import opened Sums

  const MAX_DISTANCE := 255

  // ---- All combinations of k out of n, in lexicographic order ----

  ghost predicate IsCombination(c: seq<nat>, lo: nat, n: nat, k: nat)
  {
    && |c| == k
    && (forall i :: 0 <= i < k ==> lo <= c[i] < n)
    && forall i, j :: 0 <= i < j < k ==> c[i] < c[j]
  }

  function Prefixed(x: nat, cs: seq<seq<nat>>): seq<seq<nat>>
  {
    seq(|cs|, i requires 0 <= i < |cs| => [x] + cs[i])
  }

  function CombinationsFrom(lo: nat, n: nat, k: nat): seq<seq<nat>>
    decreases n - lo
  {
    if k == 0 then [[]]
    else if lo >= n then []
    else Prefixed(lo, CombinationsFrom(lo + 1, n, k - 1)) + CombinationsFrom(lo + 1, n, k)
  }

  function Combinations(n: nat, k: nat): seq<seq<nat>> { CombinationsFrom(0, n, k) }

  lemma {:induction false} CombinationsAreValid(lo: nat, n: nat, k: nat, i: nat)
    requires lo <= n && i < |CombinationsFrom(lo, n, k)|
    ensures IsCombination(CombinationsFrom(lo, n, k)[i], lo, n, k)
    decreases n - lo
  {
    if k > 0 {
      var first := CombinationsFrom(lo + 1, n, k - 1);
      if i < |first| {
        CombinationsAreValid(lo + 1, n, k - 1, i);
      } else {
        CombinationsAreValid(lo + 1, n, k, i - |first|);
      }
    }
  }

  lemma PrefixedHas(x: nat, cs: seq<seq<nat>>, rest: seq<nat>)
    requires rest in cs
    ensures [x] + rest in Prefixed(x, cs)
  {
    var i :| 0 <= i < |cs| && cs[i] == rest;
    assert Prefixed(x, cs)[i] == [x] + rest;
  }

  lemma {:induction false} CombinationsAreComplete(lo: nat, n: nat, k: nat, c: seq<nat>)
    requires lo <= n && IsCombination(c, lo, n, k)
    ensures c in CombinationsFrom(lo, n, k)
    decreases n - lo
  {
    if k == 0 {
      assert CombinationsFrom(lo, n, k)[0] == c;
    } else {
      var first := CombinationsFrom(lo + 1, n, k - 1);
      if c[0] == lo {
        CombinationsAreComplete(lo + 1, n, k - 1, c[1..]);
        PrefixedHas(lo, first, c[1..]);
        assert c == [lo] + c[1..];
        assert c in Prefixed(lo, first);
      } else {
        CombinationsAreComplete(lo + 1, n, k, c);
      }
    }
  }

  ghost predicate LexLess(a: seq<nat>, b: seq<nat>)
  {
    a != [] && b != [] && (a[0] < b[0] || (a[0] == b[0] && LexLess(a[1..], b[1..])))
  }

  lemma {:induction false} CombinationsAreOrdered(lo: nat, n: nat, k: nat, i: nat, j: nat)
    requires lo <= n && i < j < |CombinationsFrom(lo, n, k)|
    ensures LexLess(CombinationsFrom(lo, n, k)[i], CombinationsFrom(lo, n, k)[j])
    decreases n - lo
  {
    if k > 0 {
      var first := CombinationsFrom(lo + 1, n, k - 1);
      var all := CombinationsFrom(lo, n, k);
      if j < |first| {
        CombinationsAreOrdered(lo + 1, n, k - 1, i, j);
        assert all[i][1..] == first[i] && all[j][1..] == first[j];
      } else if i < |first| {
        CombinationsAreValid(lo + 1, n, k, j - |first|);
      } else {
        CombinationsAreOrdered(lo + 1, n, k, i - |first|, j - |first|);
      }
    }
  }

  // ---- Distance ----

  ghost predicate InRange(nodes: seq<NUMANode>, c: seq<nat>)
  {
    forall i :: 0 <= i < |c| ==> c[i] < |nodes|
  }

  function CostBetween(a: NUMANode, b: NUMANode): int
  {
    if b.id in a.costs then a.costs[b.id] else MAX_DISTANCE
  }

  ghost function RowSum(nodes: seq<NUMANode>, a: nat, c: seq<nat>): int
    requires a < |nodes| && InRange(nodes, c)
  {
    if c == [] then 0 else RowSum(nodes, a, c[..|c| - 1]) + CostBetween(nodes[a], nodes[c[|c| - 1]])
  }

  ghost function SquareSum(nodes: seq<NUMANode>, rows: seq<nat>, c: seq<nat>): int
    requires InRange(nodes, rows) && InRange(nodes, c)
  {
    if rows == [] then 0 else SquareSum(nodes, rows[..|rows| - 1], c) + RowSum(nodes, rows[|rows| - 1], c)
  }

  /** Average of all pairwise distances within the combination, each node's own included. */
  ghost function Average(nodes: seq<NUMANode>, c: seq<nat>): real
    requires InRange(nodes, c)
  {
    if c == [] then MAX_DISTANCE as real
    else SquareSum(nodes, c, c) as real / (|c| * |c|) as real
  }

  /** The distance that the first node of a pair of positions reports to the second, 255 if it reports none. */
  ghost function PairCost(nodes: seq<NUMANode>, c: seq<nat>): ((nat, nat)) -> int
    requires InRange(nodes, c)
  {
    (p: (nat, nat)) =>
      if p.0 >= |c| || p.1 >= |c| then 0
      else if nodes[c[p.1]].id in nodes[c[p.0]].costs then nodes[c[p.0]].costs[nodes[c[p.1]].id]
      else 255
  }

  ghost function RowPairs(i: nat, n: nat): set<(nat, nat)> { set j: nat | j < n :: (i, j) }

  ghost function Pairs(m: nat, n: nat): set<(nat, nat)> { set i: nat, j: nat | i < m && j < n :: (i, j) }

  lemma RowGrows(i: nat, n: nat)
    ensures RowPairs(i, n + 1) == RowPairs(i, n) + {(i, n)} && (i, n) !in RowPairs(i, n)
  {
  }

  lemma PairsGrow(m: nat, n: nat)
    ensures Pairs(m + 1, n) == Pairs(m, n) + RowPairs(m, n) && Pairs(m, n) !! RowPairs(m, n)
  {
  }

  lemma {:induction false} RowIsSum(nodes: seq<NUMANode>, c: seq<nat>, i: nat, m: nat)
    requires InRange(nodes, c) && i < |c| && m <= |c|
    ensures InRange(nodes, c[..m]) && RowSum(nodes, c[i], c[..m]) == Sum(RowPairs(i, m), PairCost(nodes, c))
  {
    if m == 0 {
      assert RowPairs(i, m) == {} && c[..m] == [];
    } else {
      var j: nat := m - 1;
      RowIsSum(nodes, c, i, j);
      assert c[..m][..j] == c[..j];
      RowGrows(i, j);
      SumInsert(RowPairs(i, j), PairCost(nodes, c), (i, j));
    }
  }

  lemma {:induction false} SquareIsSum(nodes: seq<NUMANode>, c: seq<nat>, m: nat)
    requires InRange(nodes, c) && m <= |c|
    ensures InRange(nodes, c[..m]) && SquareSum(nodes, c[..m], c) == Sum(Pairs(m, |c|), PairCost(nodes, c))
  {
    if m == 0 {
      assert Pairs(m, |c|) == {} && c[..m] == [];
    } else {
      var i: nat := m - 1;
      SquareIsSum(nodes, c, i);
      RowIsSum(nodes, c, i, |c|);
      assert c[..m][..i] == c[..i] && c[..|c|] == c;
      PairsGrow(i, |c|);
      SumUnion(Pairs(i, |c|), RowPairs(i, |c|), PairCost(nodes, c));
    }
  }

  lemma DivideTimes(x: int, k: int)
    requires k > 0
    ensures (x as real / k as real) * k as real == x as real
  {
  }

  lemma AverageTimes(nodes: seq<NUMANode>, c: seq<nat>, pairs: int)
    requires InRange(nodes, c) && c != [] && pairs == |c| * |c|
    ensures Average(nodes, c) * pairs as real == SquareSum(nodes, c, c) as real
  {
    assert pairs > 0;
    DivideTimes(SquareSum(nodes, c, c), pairs);
  }

  /** The average in numbers: the reported distances of all ordered pairs of positions, summed
      and divided by the number of pairs. */
  lemma AverageInNumbers(nodes: seq<NUMANode>, c: seq<nat>, pairs: int)
    requires InRange(nodes, c) && c != [] && pairs == |c| * |c|
    ensures Average(nodes, c) * pairs as real == Sum(Pairs(|c|, |c|), PairCost(nodes, c)) as real
  {
    AverageTimes(nodes, c, pairs);
    SquareIsSum(nodes, c, |c|);
    assert c[..|c|] == c;
  }

  lemma PairSquare(nodes: seq<NUMANode>, c: seq<nat>)
    requires InRange(nodes, c) && |c| == 2
    ensures var cost := PairCost(nodes, c);
            SquareSum(nodes, c, c) == cost((0, 0)) + cost((0, 1)) + cost((1, 0)) + cost((1, 1))
  {
    var one := c[..1];
    assert one[..0] == [] && one == [c[0]] && InRange(nodes, one);
    assert RowSum(nodes, c[0], one) == CostBetween(nodes[c[0]], nodes[c[0]]);
    assert RowSum(nodes, c[1], one) == CostBetween(nodes[c[1]], nodes[c[0]]);
    assert RowSum(nodes, c[0], c) == RowSum(nodes, c[0], one) + CostBetween(nodes[c[0]], nodes[c[1]]);
    assert RowSum(nodes, c[1], c) == RowSum(nodes, c[1], one) + CostBetween(nodes[c[1]], nodes[c[1]]);
    assert SquareSum(nodes, one, c) == RowSum(nodes, c[0], c);
    assert SquareSum(nodes, c, c) == SquareSum(nodes, one, c) + RowSum(nodes, c[1], c);
  }

  /** For two nodes: both own distances and both distances to the other. */
  lemma PairInNumbers(nodes: seq<NUMANode>, c: seq<nat>)
    requires InRange(nodes, c) && |c| == 2
    ensures var cost := PairCost(nodes, c);
            Average(nodes, c) * 4.0 == (cost((0, 0)) + cost((0, 1)) + cost((1, 0)) + cost((1, 1))) as real
  {
    PairSquare(nodes, c);
    AverageTimes(nodes, c, 4);
  }

  /** The two nested loops. */
  method SumDistances(nodes: seq<NUMANode>, c: seq<nat>) returns (accu: int)
    requires InRange(nodes, c)
    ensures accu == SquareSum(nodes, c, c)
  {
    accu := 0;
    for i := 0 to |c|
      invariant InRange(nodes, c[..i]) && accu == SquareSum(nodes, c[..i], c)
    {
      assert c[..i + 1][..i] == c[..i];
      ghost var before := accu;
      for j := 0 to |c|
        invariant InRange(nodes, c[..j]) && accu == before + RowSum(nodes, c[i], c[..j])
      {
        assert c[..j + 1][..j] == c[..j];
        accu := accu + CostBetween(nodes[c[i]], nodes[c[j]]);
      }
      assert c[..|c|] == c;
    }
    assert c[..|c|] == c;
  }

  method NodesAvgDistance(nodes: seq<NUMANode>, c: seq<nat>) returns (avg: real)
    requires InRange(nodes, c)
    ensures avg == Average(nodes, c)
    ensures c == [] ==> avg == 255.0
  {
    if |c| == 0 { return MAX_DISTANCE as real; }
    var accu := SumDistances(nodes, c);
    avg := accu as real / (|c| * |c|) as real;
  }

  /** Distances within the bound of the System Locality Information Table. */
  ghost predicate SlitBounded(nodes: seq<NUMANode>)
  {
    forall i, id :: 0 <= i < |nodes| && id in nodes[i].costs ==> nodes[i].costs[id] <= MAX_DISTANCE
  }

  lemma {:induction false} RowBound(nodes: seq<NUMANode>, a: nat, c: seq<nat>)
    requires a < |nodes| && InRange(nodes, c) && SlitBounded(nodes)
    ensures RowSum(nodes, a, c) <= MAX_DISTANCE * |c|
  {
    if c != [] { RowBound(nodes, a, c[..|c| - 1]); }
  }

  lemma {:induction false} SquareBound(nodes: seq<NUMANode>, rows: seq<nat>, c: seq<nat>)
    requires InRange(nodes, rows) && InRange(nodes, c) && SlitBounded(nodes)
    ensures SquareSum(nodes, rows, c) <= MAX_DISTANCE * |c| * |rows|
  {
    if rows != [] {
      var n := |rows| - 1;
      SquareBound(nodes, rows[..n], c);
      RowBound(nodes, rows[n], c);
      assert MAX_DISTANCE * |c| * |rows| == MAX_DISTANCE * |c| * n + MAX_DISTANCE * |c|;
    }
  }

  lemma DivideBound(x: int, k: int)
    requires k > 0 && x <= MAX_DISTANCE * k
    ensures x as real / k as real <= MAX_DISTANCE as real
  {
    assert x as real <= MAX_DISTANCE as real * k as real;
    var q := x as real / k as real;
    assert q * k as real == x as real;
    if q > MAX_DISTANCE as real {
      assert q * k as real > MAX_DISTANCE as real * k as real;
    }
  }

  /** No average exceeds the bound that the single distances keep. */
  lemma AverageBound(nodes: seq<NUMANode>, c: seq<nat>)
    requires InRange(nodes, c) && SlitBounded(nodes)
    ensures Average(nodes, c) <= MAX_DISTANCE as real
  {
    if c != [] {
      SquareBound(nodes, c, c);
      assert MAX_DISTANCE * |c| * |c| == MAX_DISTANCE * (|c| * |c|);
      assert |c| * |c| > 0;
      DivideBound(SquareSum(nodes, c, c), |c| * |c|);
    }
  }

  // ---- Fit ----

  function ResourcesAt(nodes: seq<NUMANode>, c: seq<nat>): seq<ResourceList>
    requires forall i :: 0 <= i < |c| ==> c[i] < |nodes|
  {
    seq(|c|, i requires 0 <= i < |c| => nodes[c[i]].resources)
  }

  /** Every node of the combination knows every requested resource, and together they have enough. */
  ghost predicate Fits(nodes: seq<NUMANode>, guaranteed: bool, request: ResourceList, c: seq<nat>)
    requires InRange(nodes, c)
  {
    && (forall i, name :: 0 <= i < |c| && name in request ==> name in nodes[c[i]].resources)
    && forall name :: name in request && request[name] > 0 ==>
         IsSuitable(guaranteed, name, request[name], Total(ResourcesAt(nodes, c), name))
  }

  /** What node c[k] has of the resource. */
  ghost function HeldAt(nodes: seq<NUMANode>, c: seq<nat>, name: string): nat -> int
    requires InRange(nodes, c)
  {
    (k: nat) => if k < |c| && name in nodes[c[k]].resources then nodes[c[k]].resources[name] else 0
  }

  lemma {:induction false} TotalIsSum(nodes: seq<NUMANode>, c: seq<nat>, name: string, m: nat)
    requires InRange(nodes, c) && m <= |c|
    ensures Total(ResourcesAt(nodes, c[..m]), name) == Sum(BitsBelow(m), HeldAt(nodes, c, name))
  {
    if m == 0 {
      assert BitsBelow(m) == {};
    } else {
      var k: nat := m - 1;
      TotalIsSum(nodes, c, name, k);
      TotalGrows(nodes, c, name, k);
      assert BitsBelow(m) == BitsBelow(k) + {k};
      SumInsert(BitsBelow(k), HeldAt(nodes, c, name), k);
    }
  }

  lemma TotalGrows(nodes: seq<NUMANode>, c: seq<nat>, name: string, k: nat)
    requires InRange(nodes, c) && k < |c|
    ensures Total(ResourcesAt(nodes, c[..k + 1]), name) ==
            Total(ResourcesAt(nodes, c[..k]), name) + Quantity(nodes[c[k]].resources, name)
  {
    assert ResourcesAt(nodes, c[..k + 1]) == ResourcesAt(nodes, c[..k]) + [nodes[c[k]].resources];
    TotalAppend(ResourcesAt(nodes, c[..k]), nodes[c[k]].resources, name);
  }

  /** Fitting in numbers: every node lists every resource asked for, and of each that is checked
      the nodes together have at least the request. */
  lemma FitsInNumbers(nodes: seq<NUMANode>, guaranteed: bool, request: ResourceList, c: seq<nat>)
    requires InRange(nodes, c)
    ensures Fits(nodes, guaranteed, request, c) <==>
              && (forall k, name :: 0 <= k < |c| && name in request ==> name in nodes[c[k]].resources)
              && forall name :: name in request && request[name] > 0 && Checked(guaranteed, name) ==>
                   Sum(BitsBelow(|c|), HeldAt(nodes, c, name)) >= request[name]
  {
    forall name ensures Total(ResourcesAt(nodes, c), name) == Sum(BitsBelow(|c|), HeldAt(nodes, c, name)) {
      TotalIsSum(nodes, c, name, |c|);
      assert c[..|c|] == c;
    }
  }

  method CombineResources(nodes: seq<NUMANode>, c: seq<nat>) returns (r: ResourceList)
    requires InRange(nodes, c)
    ensures forall name :: Quantity(r, name) == Total(ResourcesAt(nodes, c), name)
  {
    ghost var all := ResourcesAt(nodes, c);
    r := map[];
    for i := 0 to |c|
      invariant r == Together(all[..i])
    {
      assert all[..i + 1][..i] == all[..i] && all[i] == nodes[c[i]].resources;
      r := AddTo(r, nodes[c[i]].resources);
    }
    assert all[..|c|] == all;
    forall name ensures Quantity(r, name) == Total(all, name) { TogetherIsTotal(all, name); }
  }

  method CheckFit(nodes: seq<NUMANode>, guaranteed: bool, request: ResourceList, c: seq<nat>) returns (fits: bool)
    requires InRange(nodes, c)
    ensures fits <==> Fits(nodes, guaranteed, request, c)
  {
    for i := 0 to |c|
      invariant forall j, name :: 0 <= j < i && name in request ==> name in nodes[c[j]].resources
    {
      if !(request.Keys <= nodes[c[i]].resources.Keys) {
        ghost var name :| name in request && name !in nodes[c[i]].resources;
        return false;
      }
    }
    var combined := CombineResources(nodes, c);
    var names := request.Keys;
    while names != {}
      invariant names <= request.Keys
      invariant forall n :: n in request.Keys - names && request[n] > 0 ==>
                  IsSuitable(guaranteed, n, request[n], Total(ResourcesAt(nodes, c), n))
      decreases names
    {
      var name :| name in names;
      if request[name] != 0 && !IsSuitable(guaranteed, name, request[name], Quantity(combined, name)) {
        return false;
      }
      names := names - {name};
    }
    return true;
  }

  // ---- Search ----

  const TOO_FAR := 256

  /** The loop starts from distance 256, so combinations at or beyond it are never chosen. */
  ghost predicate Near(nodes: seq<NUMANode>, c: seq<nat>)
    requires InRange(nodes, c)
  {
    Average(nodes, c) < TOO_FAR as real
  }

  ghost predicate AllInRange(nodes: seq<NUMANode>, cs: seq<seq<nat>>)
  {
    forall i :: 0 <= i < |cs| ==> InRange(nodes, cs[i])
  }

  /** The least average of the list, or the table's maximum if nothing is below it. */
  ghost predicate IsMinimum(nodes: seq<NUMANode>, cs: seq<seq<nat>>, m: real)
    requires AllInRange(nodes, cs)
  {
    && m <= MAX_DISTANCE as real && (forall i :: 0 <= i < |cs| ==> m <= Average(nodes, cs[i]))
    && (m == MAX_DISTANCE as real || exists i :: 0 <= i < |cs| && m == Average(nodes, cs[i]))
  }

  method MinAvgDistanceInCombinations(nodes: seq<NUMANode>, cs: seq<seq<nat>>) returns (m: real)
    requires AllInRange(nodes, cs)
    ensures IsMinimum(nodes, cs, m)
  {
    m := MAX_DISTANCE as real;
    for i := 0 to |cs|
      invariant m <= MAX_DISTANCE as real && forall j :: 0 <= j < i ==> m <= Average(nodes, cs[j])
      invariant m == MAX_DISTANCE as real || exists j :: 0 <= j < i && m == Average(nodes, cs[j])
    {
      var avg := NodesAvgDistance(nodes, cs[i]);
      if avg < m { m := avg; }
    }
  }

  /** Combination i is the first fitting one of least average among the list. */
  ghost predicate IsBest(nodes: seq<NUMANode>, guaranteed: bool, request: ResourceList, cs: seq<seq<nat>>, i: nat)
    requires AllInRange(nodes, cs)
  {
    && i < |cs| && Fits(nodes, guaranteed, request, cs[i])
    && (forall j :: 0 <= j < |cs| && Fits(nodes, guaranteed, request, cs[j]) ==>
          Average(nodes, cs[i]) <= Average(nodes, cs[j]))
    && (forall j :: 0 <= j < i && Fits(nodes, guaranteed, request, cs[j]) ==>
          Average(nodes, cs[i]) < Average(nodes, cs[j]))
  }

  method FindSuitableCombination(nodes: seq<NUMANode>, guaranteed: bool, request: ResourceList, cs: seq<seq<nat>>)
      returns (best: Option<nat>, isMin: bool)
    requires AllInRange(nodes, cs)
    ensures best.None? <==> forall i :: 0 <= i < |cs| && Fits(nodes, guaranteed, request, cs[i]) ==> !Near(nodes, cs[i])
    ensures best.Some? ==> IsBest(nodes, guaranteed, request, cs, best.value) && Near(nodes, cs[best.value])
    ensures best.Some? ==> (isMin <==> IsMinimum(nodes, cs, Average(nodes, cs[best.value])))
    ensures best.None? ==> !isMin
  {
    var minAvg := MinAvgDistanceInCombinations(nodes, cs);
    best, isMin := None, false;
    var minDistance := TOO_FAR as real;
    for k := 0 to |cs|
      invariant !isMin
      invariant best.None? ==> minDistance == TOO_FAR as real
      invariant best.Some? ==>
                  && best.value < k && Fits(nodes, guaranteed, request, cs[best.value])
                  && minDistance == Average(nodes, cs[best.value]) && minDistance < TOO_FAR as real
                  && minDistance != minAvg
                  && forall j :: 0 <= j < best.value && Fits(nodes, guaranteed, request, cs[j]) ==>
                    minDistance < Average(nodes, cs[j])
      invariant forall j :: 0 <= j < k && Fits(nodes, guaranteed, request, cs[j]) ==>
                  minDistance <= Average(nodes, cs[j]) && Average(nodes, cs[j]) != minAvg
    {
      var fits := CheckFit(nodes, guaranteed, request, cs[k]);
      if fits {
        var distance := NodesAvgDistance(nodes, cs[k]);
        if distance == minAvg {
          return Some(k), true;
        }
        if distance < minDistance {
          minDistance := distance;
          best := Some(k);
        }
      }
    }
    if best.Some? {
      assert !IsMinimum(nodes, cs, Average(nodes, cs[best.value])) by {
        MinimumIsUnique(nodes, cs, minAvg, Average(nodes, cs[best.value]));
      }
    }
  }

  lemma MinimumIsUnique(nodes: seq<NUMANode>, cs: seq<seq<nat>>, a: real, b: real)
    requires AllInRange(nodes, cs) && IsMinimum(nodes, cs, a)
    ensures IsMinimum(nodes, cs, b) ==> a == b
  {
  }

  ghost predicate IsSubset(nodes: seq<NUMANode>, c: seq<nat>) { IsCombination(c, 0, |nodes|, |c|) }

  /** c is smaller than d, or as large and closer, or as close and first in lexicographic order. */
  ghost predicate Before(nodes: seq<NUMANode>, c: seq<nat>, d: seq<nat>)
    requires InRange(nodes, c) && InRange(nodes, d)
  {
    || |c| < |d|
    || (|c| == |d| && (Average(nodes, c) < Average(nodes, d) ||
      (Average(nodes, c) == Average(nodes, d) && LexLess(c, d))))
  }

  /** c fits, is near enough to be chosen, and comes before every other subset that would do. */
  ghost predicate IsLeast(nodes: seq<NUMANode>, guaranteed: bool, request: ResourceList, c: seq<nat>)
  {
    && c != [] && IsSubset(nodes, c) && InRange(nodes, c) && Fits(nodes, guaranteed, request, c) && Near(nodes, c)
    && forall d | d != [] && IsSubset(nodes, d) && Fits(nodes, guaranteed, request, d) && Near(nodes, d) ::
         c == d || Before(nodes, c, d)
  }

  lemma {:induction false} LexIsAsymmetric(a: seq<nat>, b: seq<nat>)
    requires LexLess(a, b)
    ensures !LexLess(b, a)
  {
    if a[0] == b[0] { LexIsAsymmetric(a[1..], b[1..]); }
  }

  /** Of two fitting pairs with the same own distances, the one with the smaller reported distances is chosen. */
  lemma CloserPairWins(nodes: seq<NUMANode>, guaranteed: bool, request: ResourceList, c: seq<nat>, d: seq<nat>)
    requires IsLeast(nodes, guaranteed, request, c) && |c| == 2 && |d| == 2
    requires IsSubset(nodes, d) && InRange(nodes, d) && Fits(nodes, guaranteed, request, d) && Near(nodes, d)
    requires var x, y := PairCost(nodes, c), PairCost(nodes, d); x((0, 0)) + x((1, 1)) == y((0, 0)) + y((1, 1))
    ensures var x, y := PairCost(nodes, c), PairCost(nodes, d); x((0, 1)) + x((1, 0)) <= y((0, 1)) + y((1, 0))
  {
    PairInNumbers(nodes, c);
    PairInNumbers(nodes, d);
    assert c == d || Before(nodes, c, d);
  }

  /** Which subset is chosen is determined, ties included. */
  lemma LeastIsUnique(nodes: seq<NUMANode>, guaranteed: bool, request: ResourceList, c: seq<nat>, d: seq<nat>)
    requires IsLeast(nodes, guaranteed, request, c) && IsLeast(nodes, guaranteed, request, d)
    ensures c == d
  {
    if c != d && LexLess(c, d) { LexIsAsymmetric(c, d); }
  }

  /** The average of c is the minimum over all subsets of its size, capped at the table's maximum. */
  ghost predicate IsClosest(nodes: seq<NUMANode>, c: seq<nat>)
    requires InRange(nodes, c)
  {
    && Average(nodes, c) <= MAX_DISTANCE as real
    && forall d | IsSubset(nodes, d) && |d| == |c| :: Average(nodes, c) <= Average(nodes, d)
  }

  lemma CombinationsInRange(nodes: seq<NUMANode>, k: nat)
    ensures AllInRange(nodes, Combinations(|nodes|, k))
    ensures forall i :: 0 <= i < |Combinations(|nodes|, k)| ==>
              IsSubset(nodes, Combinations(|nodes|, k)[i]) && |Combinations(|nodes|, k)[i]| == k
  {
    forall i | 0 <= i < |Combinations(|nodes|, k)| ensures IsCombination(Combinations(|nodes|, k)[i], 0, |nodes|, k) {
      CombinationsAreValid(0, |nodes|, k, i);
    }
  }

  lemma MinimumMeansClosest(nodes: seq<NUMANode>, k: nat, i: nat)
    requires i < |Combinations(|nodes|, k)| && AllInRange(nodes, Combinations(|nodes|, k))
    ensures var cs := Combinations(|nodes|, k);
            IsMinimum(nodes, cs, Average(nodes, cs[i])) <==> IsClosest(nodes, cs[i])
  {
    var cs := Combinations(|nodes|, k);
    CombinationsInRange(nodes, k);
    if IsMinimum(nodes, cs, Average(nodes, cs[i])) {
      forall d | IsSubset(nodes, d) && |d| == k ensures Average(nodes, cs[i]) <= Average(nodes, d) {
        CombinationsAreComplete(0, |nodes|, k, d);
        var j :| 0 <= j < |cs| && cs[j] == d;
      }
    }
  }

  /** numaNodesRequired: the ids of the chosen nodes, or nothing. The ghost result is the chosen subset. */
  method NumaNodesRequired(nodes: seq<NUMANode>, guaranteed: bool, request: ResourceList)
      returns (bits: Option<set<nat>>, isMin: bool, ghost c: seq<nat>)
    ensures bits.None? <==>
            forall d | d != [] && IsSubset(nodes, d) && Fits(nodes, guaranteed, request, d) :: !Near(nodes, d)
    ensures bits.Some? ==> IsLeast(nodes, guaranteed, request, c)
    ensures bits.Some? ==> bits.value == set i | 0 <= i < |c| :: nodes[c[i]].id
    ensures bits.Some? ==> (isMin <==> IsClosest(nodes, c))
    ensures bits.None? ==> !isMin
  {
    c := [];
    for k := 1 to |nodes| + 1
      invariant forall d | d != [] && IsSubset(nodes, d) && |d| < k && Fits(nodes, guaranteed, request, d) ::
                !Near(nodes, d)
    {
      var cs := Combinations(|nodes|, k);
      CombinationsInRange(nodes, k);
      var best;
      best, isMin := FindSuitableCombination(nodes, guaranteed, request, cs);
      if best.Some? {
        c := cs[best.value];
        LeastOfItsSize(nodes, guaranteed, request, k, best.value);
        MinimumMeansClosest(nodes, k, best.value);
        var mask := BitsOf(nodes, cs[best.value]);
        return Some(mask), isMin, c;
      }
      forall d | d != [] && IsSubset(nodes, d) && |d| == k && Fits(nodes, guaranteed, request, d)
        ensures !Near(nodes, d)
      {
        CombinationsAreComplete(0, |nodes|, k, d);
        var i :| 0 <= i < |cs| && cs[i] == d;
      }
    }
    forall d | IsSubset(nodes, d) ensures |d| <= |nodes| { SubsetIsSmall(d, |nodes|); }
    return None, false, c;
  }

  lemma LeastOfItsSize(nodes: seq<NUMANode>, guaranteed: bool, request: ResourceList, k: nat, i: nat)
    requires k > 0 && AllInRange(nodes, Combinations(|nodes|, k))
    requires IsBest(nodes, guaranteed, request, Combinations(|nodes|, k), i) && Near(nodes, Combinations(|nodes|, k)[i])
    requires forall d | d != [] && IsSubset(nodes, d) && |d| < k && Fits(nodes, guaranteed, request, d) ::
             !Near(nodes, d)
    ensures IsLeast(nodes, guaranteed, request, Combinations(|nodes|, k)[i])
  {
    var cs := Combinations(|nodes|, k);
    CombinationsInRange(nodes, k);
    forall d | d != [] && IsSubset(nodes, d) && Fits(nodes, guaranteed, request, d) && Near(nodes, d)
      ensures cs[i] == d || Before(nodes, cs[i], d)
    {
      if |d| == k { BestComesFirst(nodes, guaranteed, request, k, i, d); }
    }
  }

  lemma BestComesFirst(nodes: seq<NUMANode>, guaranteed: bool, request: ResourceList, k: nat, i: nat, d: seq<nat>)
    requires AllInRange(nodes, Combinations(|nodes|, k)) &&
             IsBest(nodes, guaranteed, request, Combinations(|nodes|, k), i)
    requires |d| == k && IsSubset(nodes, d) && Fits(nodes, guaranteed, request, d)
    ensures |Combinations(|nodes|, k)[i]| == k
    ensures Combinations(|nodes|, k)[i] == d || Before(nodes, Combinations(|nodes|, k)[i], d)
  {
    var cs := Combinations(|nodes|, k);
    CombinationsAreValid(0, |nodes|, k, i);
    CombinationsAreComplete(0, |nodes|, k, d);
    var j :| 0 <= j < |cs| && cs[j] == d;
    if i < j { CombinationsAreOrdered(0, |nodes|, k, i, j); }
  }

  lemma {:induction false} SubsetIsSmall(d: seq<nat>, n: nat)
    requires IsCombination(d, 0, n, |d|)
    ensures |d| <= n
  {
    if d != [] {
      var k := |d| - 1;
      assert forall i :: 0 <= i < k ==> d[i] < d[k];
      SubsetIsSmall(d[..k], d[k]);
    }
  }

  method BitsOf(nodes: seq<NUMANode>, c: seq<nat>) returns (mask: set<nat>)
    requires InRange(nodes, c)
    ensures mask == set i | 0 <= i < |c| :: nodes[c[i]].id
  {
    mask := {};
    for i := 0 to |c|
      invariant mask == set j | 0 <= j < i :: nodes[c[j]].id
    {
      mask := mask + {nodes[c[i]].id};
    }
  }

  /** With distances within the table's bound every subset is near: nothing is returned
      exactly when no non-empty subset fits. */
  lemma SlitMakesAllNear(nodes: seq<NUMANode>, c: seq<nat>)
    requires SlitBounded(nodes) && InRange(nodes, c)
    ensures Near(nodes, c)
  {
    AverageBound(nodes, c);
  }

  /** Without the bound a fitting node can be missed: a lone node at distance 256 or more from itself. */
  lemma FarNodeIsMissed(node: NUMANode, guaranteed: bool, request: ResourceList)
    requires node.id in node.costs && node.costs[node.id] >= 256
    requires Fits([node], guaranteed, request, [0])
    ensures forall d | d != [] && IsSubset([node], d) && Fits([node], guaranteed, request, d) :: !Near([node], d)
  {
    forall d | d != [] && IsSubset([node], d) ensures !Near([node], d) {
      SubsetIsSmall(d, 1);
      assert d == [0];
      assert RowSum([node], 0, [0]) == RowSum([node], 0, [0][..0]) + node.costs[node.id];
      assert SquareSum([node], [0], [0]) == SquareSum([node], [0][..0], [0]) + RowSum([node], 0, [0]);
    }
  }

  // ---- Score ----

  const MAX_NODE_SCORE := 100

  function NormalizeScore(count: nat, isMinAvgDistance: bool): int
  {
    var perNode := MAX_NODE_SCORE / HIGHEST_NUMA_ID;
    var score := MAX_NODE_SCORE - count * perNode;
    if isMinAvgDistance then score + perNode / 2 else score
  }

  /** Fewer NUMA nodes always win; distance only decides between equals. */
  lemma FewerNodesScoreHigher(a: nat, b: nat, closeA: bool, closeB: bool)
    ensures a < b ==> NormalizeScore(a, closeA) > NormalizeScore(b, closeB)
    ensures NormalizeScore(a, true) > NormalizeScore(a, false)
    ensures a <= HIGHEST_NUMA_ID ==> NormalizeScore(a, closeA) > 0
    ensures 1 <= a ==> NormalizeScore(a, closeA) < MAX_NODE_SCORE
    ensures NormalizeScore(1, false) == 88 && NormalizeScore(1, true) == 94 && NormalizeScore(8, false) == 4
  {
  }
}
