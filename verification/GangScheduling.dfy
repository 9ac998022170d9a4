/** Gang scheduling: pods of a group wait at Permit until enough of them have been
    assigned to nodes, and are turned away together when one of them fails. */
module GangScheduling {

  datatype GangPod = GangPod(uid: string, namespace: string, group: string)

  /** Minimum members of the pod groups that exist, by namespace and name. */
  type Groups = map<(string, string), int>

  /** placed: pods assigned to a node, assumed or bound; waiting: held at Permit; rejected: turned
      away at Permit but not yet unreserved. */
  datatype Gang = Gang(placed: set<GangPod>, waiting: set<GangPod>, rejected: set<GangPod>)

  datatype Step =
    | Permit(pod: GangPod)
    | Unreserve(pod: GangPod)
    | PostFilter(pod: GangPod)  // no node was found for the pod
    | Removed(pod: GangPod)     // the pod was deleted from its node

  function GroupOf(p: GangPod): (string, string) { (p.namespace, p.group) }

  /** The namespaced group name by which Permit finds the pods to let through. */
  function FullName(p: GangPod): string { if p.group == "" then "" else p.namespace + "/" + p.group }

  /** Namespaces hold no slash, so the full name tells groups apart just as the pair does. */
  lemma FullNameIdentifiesGroup(p: GangPod, q: GangPod)
    requires p.group != "" && '/' !in p.namespace && '/' !in q.namespace
    ensures FullName(p) == FullName(q) <==> GroupOf(p) == GroupOf(q)
  {
    if FullName(p) == FullName(q) {
      var a, b := |p.namespace|, |q.namespace|;
      assert FullName(p)[a] == '/' && FullName(q)[b] == '/';
      assert forall i :: 0 <= i < a ==> FullName(p)[i] == p.namespace[i] && p.namespace[i] != '/';
      assert forall i :: 0 <= i < b ==> FullName(q)[i] == q.namespace[i] && q.namespace[i] != '/';
      assert a == b;
      assert p.namespace == FullName(p)[..a] && q.namespace == FullName(q)[..b];
      assert p.group == FullName(p)[a + 1..] && q.group == FullName(q)[b + 1..];
    }
  }

  predicate Grouped(groups: Groups, p: GangPod) { p.group != "" && GroupOf(p) in groups }

  ghost function Members(s: set<GangPod>, g: (string, string)): set<GangPod> { set p | p in s && GroupOf(p) == g }

  /** More than a tenth of the quorum is still missing. */
  predicate WideGap(placed: int, min: int) { 10 * (min - placed) > min }

  ghost function Reject(s: Gang, g: (string, string)): Gang
  {
    s.(waiting := s.waiting - Members(s.waiting, g), rejected := s.rejected + Members(s.waiting, g))
  }

  ghost function Next(groups: Groups, s: Gang, e: Step): Gang
  {
    match e
    case Permit(p) =>
      if p.group == "" then s.(placed := s.placed + {p})
      else if GroupOf(p) !in groups then s
      else if |Members(s.placed, GroupOf(p))| + 1 >= groups[GroupOf(p)] then
        s.(placed := s.placed + {p}, waiting := s.waiting - Members(s.waiting, GroupOf(p)))
      else s.(placed := s.placed + {p}, waiting := s.waiting + {p})
    case Unreserve(p) =>
      var t := Gang(s.placed - {p}, s.waiting - {p}, s.rejected - {p});
      if Grouped(groups, p) then Reject(t, GroupOf(p)) else t
    case PostFilter(p) =>
      if Grouped(groups, p) && |Members(s.placed, GroupOf(p))| < groups[GroupOf(p)] &&
         WideGap(|Members(s.placed, GroupOf(p))|, groups[GroupOf(p)])
      then Reject(s, GroupOf(p)) else s
    case Removed(p) => Gang(s.placed - {p}, s.waiting - {p}, s.rejected - {p})
  }

  /** The scheduler only asks Permit for a pod that has no node yet. */
  ghost predicate Legal(s: Gang, e: Step) { e.Permit? ==> e.pod !in s.placed }

  const EMPTY := Gang({}, {}, {})

  ghost function After(groups: Groups, es: seq<Step>): Gang
  {
    if es == [] then EMPTY else Next(groups, After(groups, es[..|es| - 1]), es[|es| - 1])
  }

  ghost predicate LegalRun(groups: Groups, es: seq<Step>)
  {
    forall i :: 0 <= i < |es| ==> Legal(After(groups, es[..i]), es[i])
  }

  /** No pod waits in a group that has its quorum. */
  ghost predicate Valid(groups: Groups, s: Gang)
  {
    && s.waiting <= s.placed && s.rejected <= s.placed && s.waiting !! s.rejected
    && forall p :: p in s.waiting ==> Grouped(groups, p) && |Members(s.placed, GroupOf(p))| < groups[GroupOf(p)]
  }

  lemma MembersShrink(a: set<GangPod>, b: set<GangPod>, g: (string, string))
    requires a <= b
    ensures |Members(a, g)| <= |Members(b, g)|
  {
    SubsetSize(Members(a, g), Members(b, g));
  }

  lemma {:induction false} SubsetSize<T>(a: set<T>, b: set<T>)
    requires a <= b
    ensures |a| <= |b|
    decreases a
  {
    if a != {} {
      var x :| x in a;
      SubsetSize(a - {x}, b - {x});
    }
  }

  lemma MembersGrow(s: set<GangPod>, p: GangPod, g: (string, string))
    requires p !in s
    ensures |Members(s + {p}, g)| == |Members(s, g)| + if GroupOf(p) == g then 1 else 0
  {
    if GroupOf(p) == g {
      assert Members(s + {p}, g) == Members(s, g) + {p};
    } else {
      assert Members(s + {p}, g) == Members(s, g);
    }
  }

  lemma NextKeepsValid(groups: Groups, s: Gang, e: Step)
    requires Valid(groups, s) && Legal(s, e)
    ensures Valid(groups, Next(groups, s, e))
  {
    var t := Next(groups, s, e);
    match e
    case Permit(p) =>
      forall q | q in t.waiting ensures Grouped(groups, q) && |Members(t.placed, GroupOf(q))| < groups[GroupOf(q)] {
        MembersGrow(s.placed, p, GroupOf(q));
      }
    case Unreserve(p) => ShrinkKeepsValid(groups, s, t, p);
    case PostFilter(p) =>
    case Removed(p) => ShrinkKeepsValid(groups, s, t, p);
  }

  lemma ShrinkKeepsValid(groups: Groups, s: Gang, t: Gang, p: GangPod)
    requires Valid(groups, s) && t.placed == s.placed - {p} && t.waiting <= s.waiting - {p}
    ensures forall q :: q in t.waiting ==> Grouped(groups, q) && |Members(t.placed, GroupOf(q))| < groups[GroupOf(q)]
  {
    forall q | q in t.waiting ensures Grouped(groups, q) && |Members(t.placed, GroupOf(q))| < groups[GroupOf(q)] {
      MembersShrink(t.placed, s.placed, GroupOf(q));
    }
  }

  lemma LegalPrefix(groups: Groups, es: seq<Step>, n: nat)
    requires n <= |es| && LegalRun(groups, es)
    ensures LegalRun(groups, es[..n])
  {
    assert forall i :: 0 <= i < n ==> es[..n][i] == es[i] && es[..n][..i] == es[..i];
  }

  lemma {:induction false} EveryRunIsValid(groups: Groups, es: seq<Step>)
    requires LegalRun(groups, es)
    ensures Valid(groups, After(groups, es))
  {
    if es != [] {
      var n := |es| - 1;
      LegalPrefix(groups, es, n);
      EveryRunIsValid(groups, es[..n]);
      NextKeepsValid(groups, After(groups, es[..n]), es[n]);
    }
  }

  /** Past Permit: assigned, neither held nor turned away. */
  ghost predicate Released(s: Gang, p: GangPod) { p in s.placed && p !in s.waiting && p !in s.rejected }

  /** A step lets a grouped pod through only with its group at quorum. */
  lemma ReleaseNeedsQuorum(groups: Groups, s: Gang, e: Step, p: GangPod)
    requires Valid(groups, s) && Legal(s, e) && Grouped(groups, p)
    requires !Released(s, p) && Released(Next(groups, s, e), p)
    ensures e.Permit? && GroupOf(e.pod) == GroupOf(p)
    ensures |Members(Next(groups, s, e).placed, GroupOf(p))| >= groups[GroupOf(p)]
  {
    if e.Permit? {
      MembersGrow(s.placed, e.pod, GroupOf(p));
    }
  }

  /** The group had its quorum of assigned pods right after step k. */
  ghost predicate QuorumAt(groups: Groups, es: seq<Step>, g: (string, string), k: nat)
    requires g in groups
  {
    k <= |es| && |Members(After(groups, es[..k]).placed, g)| >= groups[g]
  }

  ghost predicate ReleasedAfter(groups: Groups, es: seq<Step>, p: GangPod, k: nat)
  {
    k <= |es| && Released(After(groups, es[..k]), p)
  }

  /** In every run, a grouped pod that got past Permit, at whatever step n, did so at a
      moment k when at least MinMember pods of its group were assigned, itself included. */
  lemma {:induction false} GangSafety(groups: Groups, es: seq<Step>, p: GangPod, n: nat) returns (k: nat)
    requires LegalRun(groups, es) && Grouped(groups, p) && ReleasedAfter(groups, es, p, n)
    ensures 0 < k <= n && QuorumAt(groups, es, GroupOf(p), k)
    ensures es[k - 1].Permit? && GroupOf(es[k - 1].pod) == GroupOf(p)
    ensures !ReleasedAfter(groups, es, p, k - 1) && forall j :: k <= j <= n ==> ReleasedAfter(groups, es, p, j)
  {
    assert n > 0 by { assert es[..0] == []; }
    if ReleasedAfter(groups, es, p, n - 1) {
      k := GangSafety(groups, es, p, n - 1);
    } else {
      k := n;
      ReleasingStep(groups, es, p, n);
    }
  }

  lemma ReleasingStep(groups: Groups, es: seq<Step>, p: GangPod, n: nat)
    requires LegalRun(groups, es) && Grouped(groups, p)
    requires 0 < n && ReleasedAfter(groups, es, p, n) && !ReleasedAfter(groups, es, p, n - 1)
    ensures QuorumAt(groups, es, GroupOf(p), n) && es[n - 1].Permit? && GroupOf(es[n - 1].pod) == GroupOf(p)
  {
    var s := After(groups, es[..n - 1]);
    LegalPrefix(groups, es, n - 1);
    EveryRunIsValid(groups, es[..n - 1]);
    AfterStep(groups, es, n - 1);
    ReleaseNeedsQuorum(groups, s, es[n - 1], p);
  }

  /** What Permit does: with the quorum reached the pod and every waiting member get through,
      otherwise the pod is held; a pod without a group gets through, one without its group is refused. */
  lemma PermitDecides(groups: Groups, s: Gang, p: GangPod)
    requires Valid(groups, s) && p !in s.placed
    ensures var t := Next(groups, s, Permit(p));
            if p.group == "" then Released(t, p)
            else if (p.namespace, p.group) !in groups then t == s
            else if |Members(s.placed, (p.namespace, p.group))| + 1 >= groups[(p.namespace, p.group)] then
              Released(t, p) && forall q :: q in s.waiting && GroupOf(q) == GroupOf(p) ==> Released(t, q)
            else p in t.placed && p in t.waiting && forall q :: q in s.waiting ==> q in t.waiting
  {
  }

  /** What a failed search does: the waiting members are turned away exactly when the quorum is
      missed by more than a tenth. */
  lemma PostFilterDecides(groups: Groups, s: Gang, p: GangPod)
    requires Grouped(groups, p)
    ensures var t := Next(groups, s, PostFilter(p));
            var count, min := |Members(s.placed, GroupOf(p))|, groups[GroupOf(p)];
            if count < min && 10 * (min - count) > min then
              forall q :: q in s.waiting && GroupOf(q) == GroupOf(p) ==> q in t.rejected && q !in t.waiting
            else t == s
  {
  }

  /** An Unreserve turns the other waiting members away, and takes its own pod off its node. */
  lemma UnreserveDecides(groups: Groups, s: Gang, p: GangPod)
    requires Grouped(groups, p)
    ensures var t := Next(groups, s, Unreserve(p));
            && p !in t.placed && p !in t.waiting && p !in t.rejected
            && forall q :: q in s.waiting && q != p && GroupOf(q) == GroupOf(p) ==> q in t.rejected && q !in t.waiting
  {
  }

  /** No step touches a pod of another group. */
  lemma OtherGroupsUntouched(groups: Groups, s: Gang, e: Step, q: GangPod)
    requires GroupOf(q) != GroupOf(e.pod)
    ensures var t := Next(groups, s, e);
            && (q in t.placed <==> q in s.placed) && (q in t.waiting <==> q in s.waiting)
            && (q in t.rejected <==> q in s.rejected)
  {
  }

  /** After an Unreserve nobody of the group is left waiting. */
  lemma UnreserveClearsGroup(groups: Groups, s: Gang, p: GangPod)
    requires Grouped(groups, p)
    ensures Members(Next(groups, s, Unreserve(p)).waiting, GroupOf(p)) == {}
  {
  }

  lemma MembersSplit(placed: set<GangPod>, rejected: set<GangPod>, g: (string, string))
    requires rejected <= placed
    ensures |Members(placed, g)| == |Members(placed - rejected, g)| + |Members(rejected, g)|
  {
    assert Members(placed, g) == Members(placed - rejected, g) + Members(rejected, g);
  }

  /** Members assigned to a node and not turned away. */
  ghost function Standing(s: Gang, g: (string, string)): nat { |Members(s.placed - s.rejected, g)| }

  /** A Permit that passes the guard makes a quorum of pods none of which is turned away exactly
      when the turned-away members are no more than what the count exceeds the quorum by. */
  lemma SoundQuorumIff(groups: Groups, s: Gang, p: GangPod)
    requires Valid(groups, s) && p !in s.placed && Grouped(groups, p)
    requires |Members(s.placed, GroupOf(p))| + 1 >= groups[GroupOf(p)]
    ensures var g := GroupOf(p);
            var t := Next(groups, s, Permit(p));
            && Standing(t, g) == Standing(s, g) + 1
            && (Standing(t, g) >= groups[g] <==> |Members(s.rejected, g)| <= |Members(s.placed, g)| + 1 - groups[g])
  {
    var t := Next(groups, s, Permit(p));
    assert t.placed - t.rejected == s.placed - s.rejected + {p};
    MembersGrow(s.placed - s.rejected, p, GroupOf(p));
    MembersSplit(s.placed, s.rejected, GroupOf(p));
  }

  /** Over every run: at the step that released a pod, MinMember members stood assigned and not
      turned away exactly when those turned away before it were covered by the surplus; so with
      none of them turned away, the quorum is sound. */
  lemma SoundGangSafety(groups: Groups, es: seq<Step>, p: GangPod, n: nat) returns (k: nat)
    requires LegalRun(groups, es) && Grouped(groups, p) && ReleasedAfter(groups, es, p, n)
    ensures 0 < k <= n && QuorumAt(groups, es, GroupOf(p), k)
    ensures !ReleasedAfter(groups, es, p, k - 1) && forall j :: k <= j <= n ==> ReleasedAfter(groups, es, p, j)
    ensures var g := GroupOf(p);
            var s, t := After(groups, es[..k - 1]), After(groups, es[..k]);
            && (Standing(t, g) >= groups[g] <==> |Members(s.rejected, g)| <= |Members(s.placed, g)| + 1 - groups[g])
            && (Members(s.rejected, g) == {} ==> Standing(t, g) >= groups[g])
  {
    k := GangSafety(groups, es, p, n);
    SoundStep(groups, es, GroupOf(p), k);
  }

  lemma SoundStep(groups: Groups, es: seq<Step>, g: (string, string), k: nat)
    requires LegalRun(groups, es) && g in groups && g.1 != "" && 0 < k && QuorumAt(groups, es, g, k)
    requires es[k - 1].Permit? && GroupOf(es[k - 1].pod) == g
    ensures var s := After(groups, es[..k - 1]);
            Standing(After(groups, es[..k]), g) >= groups[g] <==>
              |Members(s.rejected, g)| <= |Members(s.placed, g)| + 1 - groups[g]
    ensures |Members(After(groups, es[..k - 1]).placed, g)| + 1 >= groups[g]
  {
    var s, q := After(groups, es[..k - 1]), es[k - 1].pod;
    LegalPrefix(groups, es, k - 1);
    EveryRunIsValid(groups, es[..k - 1]);
    AfterStep(groups, es, k - 1);
    assert Legal(s, es[k - 1]);
    PassedTheGuard(groups, s, q);
    SoundQuorumIff(groups, s, q);
  }

  /** A quorum after a Permit means that the guard had passed. */
  lemma PassedTheGuard(groups: Groups, s: Gang, q: GangPod)
    requires q !in s.placed && Grouped(groups, q)
    requires |Members(Next(groups, s, Permit(q)).placed, GroupOf(q))| >= groups[GroupOf(q)]
    ensures |Members(s.placed, GroupOf(q))| + 1 >= groups[GroupOf(q)]
  {
    MembersGrow(s.placed, q, GroupOf(q));
  }

  /** Turned-away pods do count: one of them can complete a quorum that falls apart as soon as
      it leaves. */
  lemma RejectedPodsStillCount(groups: Groups, a: GangPod, b: GangPod)
    requires a != b && a.group != "" && GroupOf(a) == GroupOf(b) && groups == map[GroupOf(a) := 2]
    ensures var s := After(groups, [Permit(a), PostFilter(b), Permit(b), Unreserve(a)]);
            LegalRun(groups, [Permit(a), PostFilter(b), Permit(b), Unreserve(a)]) &&
            Released(s, b) && |Members(s.placed, GroupOf(b))| < 2
  {
    var es := [Permit(a), PostFilter(b), Permit(b), Unreserve(a)];
    LateRun(groups, a, b);
    assert es[..4] == es;
    assert Members({b}, GroupOf(b)) == {b};
    forall i | 0 <= i < 4 ensures Legal(After(groups, es[..i]), es[i]) {
      assert i == 0 || i == 1 || i == 2 || i == 3;
    }
  }

  lemma LateRun(groups: Groups, a: GangPod, b: GangPod)
    requires a != b && a.group != "" && GroupOf(a) == GroupOf(b) && groups == map[GroupOf(a) := 2]
    ensures var es := [Permit(a), PostFilter(b), Permit(b), Unreserve(a)];
            && After(groups, es[..0]) == EMPTY && After(groups, es[..2]) == Gang({a}, {}, {a})
            && After(groups, es[..4]) == Gang({b}, {}, {})
  {
    var es := [Permit(a), PostFilter(b), Permit(b), Unreserve(a)];
    TurnedAway(groups, a, b);
    ThenPermitted(groups, a, b);
    assert es[..0] == [];
    AfterStep(groups, es, 0);
    AfterStep(groups, es, 1);
    AfterStep(groups, es, 2);
    AfterStep(groups, es, 3);
  }

  lemma TurnedAway(groups: Groups, a: GangPod, b: GangPod)
    requires a != b && a.group != "" && GroupOf(a) == GroupOf(b) && groups == map[GroupOf(a) := 2]
    ensures Next(groups, EMPTY, Permit(a)) == Gang({a}, {a}, {})
    ensures Next(groups, Gang({a}, {a}, {}), PostFilter(b)) == Gang({a}, {}, {a})
  {
    assert Members({}, GroupOf(a)) == {} && Members({a}, GroupOf(a)) == {a};
  }

  lemma ThenPermitted(groups: Groups, a: GangPod, b: GangPod)
    requires a != b && a.group != "" && GroupOf(a) == GroupOf(b) && groups == map[GroupOf(a) := 2]
    ensures Next(groups, Gang({a}, {}, {a}), Permit(b)) == Gang({a, b}, {}, {a})
    ensures Next(groups, Gang({a, b}, {}, {a}), Unreserve(a)) == Gang({b}, {}, {})
  {
    assert Members({}, GroupOf(a)) == {} && Members({a}, GroupOf(a)) == {a};
  }

  lemma AfterStep(groups: Groups, es: seq<Step>, i: nat)
    requires i < |es|
    ensures After(groups, es[..i + 1]) == Next(groups, After(groups, es[..i]), es[i])
  {
    assert es[..i + 1][..i] == es[..i];
  }

  // ---- The plugin object ----

  datatype Answer = Success | Unschedulable | Wait

  class Coscheduling {
    var placed: set<GangPod>
    var waiting: set<GangPod>
    var rejected: set<GangPod>

    ghost function State(): Gang
      reads this
    {
      Gang(placed, waiting, rejected)
    }

    constructor ()
      ensures State() == EMPTY
    {
      placed, waiting, rejected := {}, {}, {};
    }

    /** CalculateAssignedPods */
    method CalculateAssignedPods(g: (string, string)) returns (count: nat)
      ensures count == |Members(placed, g)|
    {
      count := 0;
      var rest := placed;
      assert Members({}, g) == {};
      while rest != {}
        invariant rest <= placed && count == |Members(placed - rest, g)|
        decreases rest
      {
        var p :| p in rest;
        ghost var seen := placed - rest;
        MembersGrow(seen, p, g);
        if p.group == g.1 && p.namespace == g.0 { count := count + 1; }
        rest := rest - {p};
        assert placed - rest == seen + {p};
      }
      assert placed - rest == placed;
    }

    /** IterateOverWaitingPods with a test on the group. */
    method WaitingOf(g: (string, string)) returns (pods: set<GangPod>)
      ensures pods == Members(waiting, g)
    {
      pods := set p | p in waiting && p.namespace == g.0 && p.group == g.1;
    }

    /** Permit; a pod that is let through or held has its node by then. */
    method Permit(groups: Groups, pod: GangPod) returns (answer: Answer)
      modifies this
      ensures State() == Next(groups, old(State()), Step.Permit(pod))
      ensures answer == Wait <==>
              Grouped(groups, pod) && |Members(old(placed), GroupOf(pod))| + 1 < groups[GroupOf(pod)]
      ensures answer == Unschedulable <==> pod.group != "" && GroupOf(pod) !in groups
    {
      if pod.group == "" {
        placed := placed + {pod};
        return Success;
      }
      if GroupOf(pod) !in groups { return Unschedulable; }
      var count := CalculateAssignedPods(GroupOf(pod));
      placed := placed + {pod};
      if count + 1 >= groups[GroupOf(pod)] {
        var allowed := WaitingOf(GroupOf(pod));
        waiting := waiting - allowed;
        return Success;
      }
      waiting := waiting + {pod};
      return Wait;
    }

    method Unreserve(groups: Groups, pod: GangPod)
      modifies this
      ensures State() == Next(groups, old(State()), Step.Unreserve(pod))
    {
      placed, waiting, rejected := placed - {pod}, waiting - {pod}, rejected - {pod};
      if pod.group == "" || GroupOf(pod) !in groups { return; }
      var group := WaitingOf(GroupOf(pod));
      waiting, rejected := waiting - group, rejected + group;
    }

    method PostFilter(groups: Groups, pod: GangPod)
      modifies this
      ensures State() == Next(groups, old(State()), Step.PostFilter(pod))
    {
      if pod.group == "" || GroupOf(pod) !in groups { return; }
      var count := CalculateAssignedPods(GroupOf(pod));
      var min := groups[GroupOf(pod)];
      if count >= min { return; }
      if 10 * (min - count) <= min { return; }
      var group := WaitingOf(GroupOf(pod));
      waiting, rejected := waiting - group, rejected + group;
    }
  }
}
