/** The greedy reprieve that ends both victim selectors: every candidate has been
    taken off the node, and each is put back, once, in a fixed order, unless
    the node then stops being acceptable. */
module Reprieve {

  datatype Outcome<T> = Outcome(kept: seq<T>, victims: seq<T>)

  ghost predicate Distinct<T>(s: seq<T>)
  {
    forall i, j :: 0 <= i < j < |s| ==> s[i] != s[j]
  }

  /** `ok` judges the node by the list of candidates put back on it. */
  ghost function Run<T>(ok: seq<T> -> bool, candidates: seq<T>): Outcome<T>
  {
    if candidates == [] then Outcome([], [])
    else
      var n := |candidates| - 1;
      var o := Run(ok, candidates[..n]);
      if Allows(ok, o.kept, candidates[n])
      then Outcome(o.kept + [candidates[n]], o.victims)
      else Outcome(o.kept, o.victims + [candidates[n]])
  }

  ghost predicate Allows<T>(ok: seq<T> -> bool, kept: seq<T>, v: T) { ok(kept + [v]) }

  lemma {:induction false} RunSplits<T>(ok: seq<T> -> bool, candidates: seq<T>)
    ensures multiset(Run(ok, candidates).kept) + multiset(Run(ok, candidates).victims) == multiset(candidates)
  {
    if candidates != [] {
      var n := |candidates| - 1;
      RunSplits(ok, candidates[..n]);
      assert candidates == candidates[..n] + [candidates[n]];
    }
  }

  /** An acceptable start stays acceptable. */
  lemma {:induction false} RunStaysOk<T>(ok: seq<T> -> bool, candidates: seq<T>)
    requires ok([])
    ensures ok(Run(ok, candidates).kept)
  {
    if candidates != [] {
      RunStaysOk(ok, candidates[..|candidates| - 1]);
    }
  }

  lemma {:induction false} RunGrows<T>(ok: seq<T> -> bool, candidates: seq<T>, i: nat)
    requires i <= |candidates|
    ensures Run(ok, candidates[..i]).kept <= Run(ok, candidates).kept
    decreases |candidates| - i
  {
    if i == |candidates| {
      assert candidates[..i] == candidates;
    } else {
      RunGrows(ok, candidates, i + 1);
      assert candidates[..i + 1][..i] == candidates[..i];
      var o := Run(ok, candidates[..i]);
      assert Run(ok, candidates[..i + 1]).kept == o.kept
          || Run(ok, candidates[..i + 1]).kept == o.kept + [candidates[i]];
    }
  }

  /** A victim is a candidate that was turned down in its turn. */
  lemma {:induction false} VictimWasRefused<T>(ok: seq<T> -> bool, candidates: seq<T>, v: T) returns (i: nat)
    requires v in Run(ok, candidates).victims
    ensures i < |candidates| && candidates[i] == v
    ensures !Allows(ok, Run(ok, candidates[..i]).kept, v)
  {
    var n := |candidates| - 1;
    var o := Run(ok, candidates[..n]);
    if v in o.victims {
      i := VictimWasRefused(ok, candidates[..n], v);
      assert candidates[..n][..i] == candidates[..i];
    } else {
      i := n;
    }
  }

  /** Putting fewer candidates back never turns an acceptable addition down. */
  ghost predicate Hereditary<T(!new)>(ok: seq<T> -> bool, pool: seq<T>)
  {
    forall few, many, v | few <= many && Distinct(many + [v]) && (forall x :: x in many + [v] ==> x in pool) ::
      Allows(ok, many, v) ==> Allows(ok, few, v)
  }

  /** Although each candidate was tried only once, no victim could be put back at the end. */
  lemma RunIsIrreducible<T(!new)>(ok: seq<T> -> bool, candidates: seq<T>, v: T)
    requires Distinct(candidates) && Hereditary(ok, candidates)
    requires v in Run(ok, candidates).victims
    ensures !Allows(ok, Run(ok, candidates).kept, v)
  {
    var i := VictimWasRefused(ok, candidates, v);
    RunGrows(ok, candidates, i);
    RunSplits(ok, candidates);
    var few, many := Run(ok, candidates[..i]).kept, Run(ok, candidates).kept;
    assert Distinct(many + [v]) && forall x :: x in many + [v] ==> x in candidates by {
      SplitIsDistinct(candidates, many, Run(ok, candidates).victims, v);
    }
  }

  lemma {:induction false} DistinctIff<T>(s: seq<T>)
    ensures Distinct(s) <==> forall x :: x in multiset(s) ==> multiset(s)[x] == 1
  {
    if s != [] {
      var n := |s| - 1;
      DistinctIff(s[..n]);
      assert s == s[..n] + [s[n]];
      assert multiset(s) == multiset(s[..n]) + multiset{s[n]};
      assert forall i, j :: 0 <= i < j < n ==> s[..n][i] == s[i] && s[..n][j] == s[j];
      if Distinct(s) {
        assert Distinct(s[..n]);
        assert s[n] !in s[..n];
      }
      if forall x :: x in multiset(s) ==> multiset(s)[x] == 1 {
        assert forall x :: x in multiset(s[..n]) ==> multiset(s)[x] == 1;
        assert multiset(s)[s[n]] == 1;
        assert s[n] !in multiset(s[..n]);
        assert s[n] !in s[..n];
        forall i, j | 0 <= i < j < |s| ensures s[i] != s[j] {
          if j == n { assert s[..n][i] == s[i]; }
        }
      }
    }
  }

  lemma SplitIsDistinct<T>(whole: seq<T>, a: seq<T>, b: seq<T>, v: T)
    requires Distinct(whole) && multiset(a) + multiset(b) == multiset(whole)
    requires v in b
    ensures Distinct(a + [v]) && Distinct(b)
    ensures forall x :: x in a + [v] ==> x in whole
  {
    DistinctIff(whole);
    DistinctIff(a + [v]);
    DistinctIff(b);
    assert multiset(a + [v]) == multiset(a) + multiset{v};
    assert v in multiset(b);
    forall x | x in multiset(a + [v]) ensures multiset(a + [v])[x] == 1 && x in whole {
      assert multiset(whole)[x] == multiset(a)[x] + multiset(b)[x];
      assert x in multiset(whole);
      assert multiset(whole)[x] == 1;
    }
    forall x | x in multiset(b) ensures multiset(b)[x] == 1 {
      assert multiset(whole)[x] == multiset(a)[x] + multiset(b)[x];
      assert x in multiset(whole);
    }
  }
}
