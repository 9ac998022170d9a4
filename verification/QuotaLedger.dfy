/** The live quota ledger: every informer event, reservation and un-reservation as
    a step on the table of quotas, and what holds after any run of steps. */
module QuotaLedger {
  import opened Options
  import opened Resources
  import opened Pods
  import opened ElasticQuota
  import opened Sums

  datatype Phase = Pending | Running | Succeeded | Failed | Unknown

  datatype Bounds = Bounds(min: Option<Resource>, max: Option<Resource>)

  datatype Event =
    | QuotaAdded(namespace: string, bounds: Bounds)
    | QuotaUpdated(namespace: string, bounds: Bounds)
    | QuotaDeleted(namespace: string)
    | PodAdded(pod: Pod, listed: Option<Bounds>)  // listed: the quota found by asking the API server
    | PodUpdated(pod: Pod, oldPhase: Phase, newPhase: Phase)
    | PodDeleted(pod: Pod)
    | Reserved(pod: Pod)
    | Unreserved(pod: Pod)

  function Create(b: Bounds): Quota { NewQuota(b.min, b.max) }

  /** updatePod drops a pod that leaves Running and Pending, unless it had already finished. */
  predicate Finishes(oldPhase: Phase, newPhase: Phase)
  {
    oldPhase != Succeeded && oldPhase != Failed && newPhase != Running && newPhase != Pending
  }

  function Apply(qs: Quotas, e: Event): Quotas
  {
    match e
    case QuotaAdded(n, b) => if n in qs then qs else qs[n := Create(b)]
    case QuotaUpdated(n, b) =>
      qs[n := if n in qs then Create(b).(pods := qs[n].pods, used := qs[n].used) else Create(b)]
    case QuotaDeleted(n) => qs - {n}
    case PodAdded(p, listed) =>
      if p.namespace in qs || listed.None? then AddPod(qs, p)
      else AddPod(qs[p.namespace := Create(listed.value)], p)
    case PodUpdated(p, o, n) => if Finishes(o, n) then RemovePod(qs, p) else qs
    case PodDeleted(p) => RemovePod(qs, p)
    case Reserved(p) => AddPod(qs, p)
    case Unreserved(p) => RemovePod(qs, p)
  }

  ghost function After(es: seq<Event>): Quotas
  {
    if es == [] then map[] else Apply(After(es[..|es| - 1]), es[|es| - 1])
  }

  // ---- Used is the sum over the tracked pods ----

  ghost function RequestOf(request: string -> Resource, d: Dimension): string -> int
  {
    u => Amount(request(u), d)
  }

  ghost predicate ExactQuota(q: Quota, request: string -> Resource)
  {
    forall d :: Amount(q.used, d) == Sum(q.pods, RequestOf(request, d))
  }

  ghost predicate Asks(p: Pod, request: string -> Resource)
  {
    forall d :: Amount(Request(p), d) == Amount(request(p.uid), d)
  }

  lemma WithPodExact(q: Quota, p: Pod, request: string -> Resource)
    requires ExactQuota(q, request) && Asks(p, request)
    ensures ExactQuota(WithPod(q, p), request)
  {
    if p.uid != "" && p.uid !in q.pods {
      forall d ensures Amount(WithPod(q, p).used, d) == Sum(q.pods + {p.uid}, RequestOf(request, d)) {
        SumInsert(q.pods, RequestOf(request, d), p.uid);
      }
    }
  }

  /** Deleting a tracked pod keeps the ledger exact just when it gives back what was charged. */
  lemma DeleteKeepsExactIff(q: Quota, p: Pod, request: string -> Resource)
    requires ExactQuota(q, request) && p.uid != "" && p.uid in q.pods
    ensures ExactQuota(WithoutPod(q, p), request) <==> Asks(p, request)
  {
    forall d ensures Sum(q.pods, RequestOf(request, d)) ==
                     Amount(request(p.uid), d) + Sum(q.pods - {p.uid}, RequestOf(request, d)) {
      SumPick(q.pods, RequestOf(request, d), p.uid);
    }
    assert forall d :: Amount(WithoutPod(q, p).used, d) == Amount(q.used, d) - Amount(Request(p), d);
    if ExactQuota(WithoutPod(q, p), request) {
      forall d ensures Amount(Request(p), d) == Amount(request(p.uid), d) {
        assert Amount(WithoutPod(q, p).used, d) == Sum(q.pods - {p.uid}, RequestOf(request, d));
      }
    }
  }

  lemma WithoutPodExact(q: Quota, p: Pod, request: string -> Resource)
    requires ExactQuota(q, request) && Asks(p, request)
    ensures ExactQuota(WithoutPod(q, p), request)
  {
    if p.uid != "" && p.uid in q.pods {
      DeleteKeepsExactIff(q, p, request);
    }
  }

  lemma ExactSame(q: Quota, request: string -> Resource, request': string -> Resource)
    requires ExactQuota(q, request) && forall u :: u in q.pods ==> request(u) == request'(u)
    ensures ExactQuota(q, request')
  {
    forall d ensures Sum(q.pods, RequestOf(request, d)) == Sum(q.pods, RequestOf(request', d)) {
      SumSame(q.pods, RequestOf(request, d), RequestOf(request', d));
    }
  }

  // ---- Which pods are tracked ----

  predicate Creates(e: Event, n: string)
  {
    match e
    case QuotaAdded(m, _) => m == n
    case QuotaUpdated(m, _) => m == n
    case PodAdded(p, listed) => p.namespace == n && listed.Some?
    case _ => false
  }

  predicate Joins(e: Event, n: string, u: string)
  {
    (e.PodAdded? || e.Reserved?) && e.pod.namespace == n && e.pod.uid == u
  }

  predicate Leaves(e: Event, n: string, u: string)
  {
    match e
    case QuotaDeleted(m) => m == n
    case PodUpdated(p, o, k) =>
      && (o == Pending || o == Running || o == Unknown) && (k == Succeeded || k == Failed || k == Unknown)
      && p.namespace == n && p.uid == u
    case PodDeleted(p) => p.namespace == n && p.uid == u
    case Unreserved(p) => p.namespace == n && p.uid == u
    case _ => false
  }

  /** A quota was created in namespace n and not deleted since. */
  ghost predicate Open(es: seq<Event>, n: string)
  {
    exists i :: 0 <= i < |es| && Creates(es[i], n) && forall j :: i < j < |es| ==> es[j] != QuotaDeleted(n)
  }

  /** The pod was added or reserved while a quota was open, and has not left since. */
  ghost predicate Held(es: seq<Event>, n: string, u: string)
  {
    exists i: nat :: HeldSince(es, n, u, i)
  }

  lemma OpenStep(es: seq<Event>, n: string)
    requires es != []
    ensures var k := |es| - 1;
            Open(es, n) <==> Creates(es[k], n) || (Open(es[..k], n) && es[k] != QuotaDeleted(n))
  {
    var k := |es| - 1;
    assert forall i :: 0 <= i < k ==> es[..k][i] == es[i];
    if Open(es, n) && !Creates(es[k], n) {
      var i :| 0 <= i < |es| && Creates(es[i], n) && forall j :: i < j < |es| ==> es[j] != QuotaDeleted(n);
      assert Creates(es[..k][i], n);
    }
    if Open(es[..k], n) && es[k] != QuotaDeleted(n) {
      var i :| 0 <= i < k && Creates(es[..k][i], n) && forall j :: i < j < k ==> es[..k][j] != QuotaDeleted(n);
      assert Creates(es[i], n);
    }
  }

  ghost predicate HeldSince(es: seq<Event>, n: string, u: string, i: nat)
  {
    && i < |es| && Joins(es[i], n, u) && Open(es[..i + 1], n)
    && forall j :: i < j < |es| ==> !Leaves(es[j], n, u)
  }

  lemma HeldSinceStep(es: seq<Event>, n: string, u: string, i: nat)
    requires es != [] && i < |es| - 1
    ensures var k := |es| - 1;
            HeldSince(es, n, u, i) <==> HeldSince(es[..k], n, u, i) && !Leaves(es[k], n, u)
  {
    var k := |es| - 1;
    assert es[..k][..i + 1] == es[..i + 1];
    assert forall j :: 0 <= j < k ==> es[..k][j] == es[j];
  }

  lemma HeldStep(es: seq<Event>, n: string, u: string)
    requires es != []
    ensures var k := |es| - 1;
            Held(es, n, u) <==> (Joins(es[k], n, u) && Open(es, n)) || (Held(es[..k], n, u) && !Leaves(es[k], n, u))
  {
    var k := |es| - 1;
    assert es[..k + 1] == es;
    if Held(es, n, u) {
      var i: nat :| HeldSince(es, n, u, i);
      if i < k { HeldSinceStep(es, n, u, i); }
    }
    if Held(es[..k], n, u) && !Leaves(es[k], n, u) {
      var i: nat :| HeldSince(es[..k], n, u, i);
      HeldSinceStep(es, n, u, i);
    }
    if Joins(es[k], n, u) && Open(es, n) {
      assert HeldSince(es, n, u, k);
    }
  }

  lemma TrackingStep(qs: Quotas, e: Event, n: string, u: string)
    requires u != ""
    ensures n in Apply(qs, e) <==> Creates(e, n) || (n in qs && e != QuotaDeleted(n))
    ensures n in Apply(qs, e) ==>
              (u in Apply(qs, e)[n].pods <==> Joins(e, n, u) || (n in qs && u in qs[n].pods && !Leaves(e, n, u)))
  {
  }

  /** After any run, the tracked pods are the ones the history says are held. */
  lemma {:induction false} LedgerTracksHistory(es: seq<Event>, n: string, u: string)
    requires u != ""
    ensures n in After(es) <==> Open(es, n)
    ensures n in After(es) ==> (u in After(es)[n].pods <==> Held(es, n, u))
    ensures n !in After(es) ==> !Held(es, n, u)
  {
    if es != [] {
      var k := |es| - 1;
      LedgerTracksHistory(es[..k], n, u);
      OpenStep(es, n);
      HeldStep(es, n, u);
      TrackingStep(After(es[..k]), es[k], n, u);
    }
  }

  // ---- Bounds ----

  /** Event i set the bounds of the quota: an update always does, a quota or a pod that brings
      one only where there is none yet. */
  ghost predicate SetsBounds(es: seq<Event>, n: string, b: Bounds, i: nat)
  {
    i < |es| &&
    match es[i]
    case QuotaUpdated(m, bounds) => m == n && bounds == b
    case QuotaAdded(m, bounds) => m == n && bounds == b && !Open(es[..i], n)
    case PodAdded(p, listed) => p.namespace == n && listed == Some(b) && !Open(es[..i], n)
    case _ => false
  }

  /** The bounds of a quota are those of the last event that set them, with the largest 64-bit
      numbers for a missing Max and zeros for a missing Min. */
  ghost predicate HasBounds(q: Quota, b: Bounds)
  {
    && (if b.min.Some? then q.min == b.min.value else forall d :: Amount(q.min, d) == 0)
    && if b.max.Some? then q.max == b.max.value
       else q.max == Resource(0x7fff_ffff_ffff_ffff, 0x7fff_ffff_ffff_ffff, 0x7fff_ffff_ffff_ffff, 0, map[])
  }

  lemma BoundsStep(qs: Quotas, e: Event, n: string)
    requires n in Apply(qs, e)
    ensures match e
            case QuotaUpdated(m, b) =>
              if m == n then HasBounds(Apply(qs, e)[n], b) else n in qs && SameBounds(Apply(qs, e)[n], qs[n])
            case QuotaAdded(m, b) =>
              if m == n && n !in qs then HasBounds(Apply(qs, e)[n], b)
              else n in qs && SameBounds(Apply(qs, e)[n], qs[n])
            case PodAdded(p, listed) =>
              if p.namespace == n && n !in qs then listed.Some? && HasBounds(Apply(qs, e)[n], listed.value)
              else n in qs && SameBounds(Apply(qs, e)[n], qs[n])
            case _ => n in qs && SameBounds(Apply(qs, e)[n], qs[n])
  {
  }

  ghost predicate SameBounds(a: Quota, b: Quota) { a.min == b.min && a.max == b.max }

  lemma {:induction false} BoundsFollowHistory(es: seq<Event>, n: string) returns (i: nat, b: Bounds)
    requires n in After(es)
    ensures SetsBounds(es, n, b, i) && HasBounds(After(es)[n], b)
    ensures forall j, c :: i < j < |es| ==> !SetsBounds(es, n, c, j) && es[j] != QuotaDeleted(n)
  {
    var k := |es| - 1;
    var qs, e := After(es[..k]), es[k];
    LedgerTracksHistory(es[..k], n, "x");
    BoundsStep(qs, e, n);
    if e.QuotaUpdated? && e.namespace == n {
      i, b := k, e.bounds;
    } else if e.QuotaAdded? && e.namespace == n && n !in qs {
      i, b := k, e.bounds;
    } else if e.PodAdded? && e.pod.namespace == n && n !in qs {
      i, b := k, e.listed.value;
    } else {
      i, b := BoundsFollowHistory(es[..k], n);
      SetsEarlier(es, n);
    }
  }

  /** What set bounds before the last event is the same with it. */
  lemma SetsEarlier(es: seq<Event>, n: string)
    requires es != []
    ensures var k := |es| - 1;
            forall j: nat, c :: j < k ==>
              es[..k][j] == es[j] && (SetsBounds(es, n, c, j) <==> SetsBounds(es[..k], n, c, j))
  {
    var k := |es| - 1;
    forall j: nat, c | j < k ensures SetsBounds(es, n, c, j) <==> SetsBounds(es[..k], n, c, j) {
      assert es[..k][j] == es[j] && es[..k][..j] == es[..j];
    }
  }

  // ---- What tracked pods were charged ----

  predicate Tracks(qs: Quotas, n: string, u: string) { n in qs && u in qs[n].pods }

  /** The event takes its pod out of the ledger, if it is there. */
  predicate GivesBack(e: Event)
  {
    (e.PodUpdated? && Finishes(e.oldPhase, e.newPhase)) || e.PodDeleted? || e.Unreserved?
  }

  /** What the pod asked for when it was last added while not tracked. */
  ghost function Charged(es: seq<Event>, n: string, u: string): Resource
  {
    if es == [] then ZERO
    else
      var k := |es| - 1;
      if Joins(es[k], n, u) && !Tracks(After(es[..k]), n, u) then Request(es[k].pod) else Charged(es[..k], n, u)
  }

  ghost function ChargesIn(es: seq<Event>, n: string): string -> Resource { u => Charged(es, n, u) }

  /** A tracked pod is given back with the request it was charged for. Between being given back
      and being added again, requests may change. */
  ghost predicate FixedWhileTracked(es: seq<Event>)
  {
    forall i :: 0 <= i < |es| && GivesBack(es[i]) && Tracks(After(es[..i]), es[i].pod.namespace, es[i].pod.uid) ==>
      Asks(es[i].pod, ChargesIn(es[..i], es[i].pod.namespace))
  }

  /** One event, seen from the quota of one namespace. */
  lemma StepKeepsExact(es: seq<Event>, n: string)
    requires es != [] && FixedWhileTracked(es) && n in After(es)
    requires var k := |es| - 1; n in After(es[..k]) ==> ExactQuota(After(es[..k])[n], ChargesIn(es[..k], n))
    ensures ExactQuota(After(es)[n], ChargesIn(es, n))
  {
    var k := |es| - 1;
    var qs, e, charges := After(es[..k]), es[k], ChargesIn(es, n);
    if n in qs {
      ExactSame(qs[n], ChargesIn(es[..k], n), charges);
      EventKeepsExact(qs, e, n, charges);
    } else {
      forall b: Bounds ensures ExactQuota(Create(b), charges) { NothingIsExact(b, charges); }
      EventStartsExact(qs, e, n, charges);
    }
  }

  lemma NothingIsExact(b: Bounds, charges: string -> Resource)
    ensures ExactQuota(Create(b), charges)
  {
    forall d ensures Sum(Create(b).pods, RequestOf(charges, d)) == 0 { }
  }

  lemma EventKeepsExact(qs: Quotas, e: Event, n: string, charges: string -> Resource)
    requires n in qs && ExactQuota(qs[n], charges) && n in Apply(qs, e)
    requires (e.PodAdded? || e.Reserved?) && e.pod.namespace == n && e.pod.uid !in qs[n].pods ==> Asks(e.pod, charges)
    requires GivesBack(e) && e.pod.namespace == n && e.pod.uid in qs[n].pods ==> Asks(e.pod, charges)
    ensures ExactQuota(Apply(qs, e)[n], charges)
  {
    if (e.PodAdded? || e.Reserved?) && e.pod.namespace == n && e.pod.uid !in qs[n].pods {
      WithPodExact(qs[n], e.pod, charges);
    } else if GivesBack(e) && e.pod.namespace == n && e.pod.uid in qs[n].pods {
      WithoutPodExact(qs[n], e.pod, charges);
    } else {
      assert Apply(qs, e)[n].used == qs[n].used && Apply(qs, e)[n].pods == qs[n].pods;
    }
  }

  lemma EventStartsExact(qs: Quotas, e: Event, n: string, charges: string -> Resource)
    requires n !in qs && n in Apply(qs, e) && forall b :: ExactQuota(Create(b), charges)
    requires e.PodAdded? && e.pod.namespace == n ==> Asks(e.pod, charges)
    ensures ExactQuota(Apply(qs, e)[n], charges)
  {
    if e.PodAdded? { WithPodExact(Create(e.listed.value), e.pod, charges); }
  }

  /** In every run in which tracked pods keep their requests, with repeats and in any order, the
      usage of each quota is the sum, over exactly the pods in its set, of what each asked for
      when it was added. */
  lemma {:induction false} LedgerIsExact(es: seq<Event>, n: string)
    requires FixedWhileTracked(es) && n in After(es)
    ensures ExactQuota(After(es)[n], ChargesIn(es, n))
  {
    var k := |es| - 1;
    if n in After(es[..k]) {
      FixedPrefix(es);
      LedgerIsExact(es[..k], n);
    }
    StepKeepsExact(es, n);
  }

  lemma FixedPrefix(es: seq<Event>)
    requires es != [] && FixedWhileTracked(es)
    ensures FixedWhileTracked(es[..|es| - 1])
  {
    var k := |es| - 1;
    assert forall i :: 0 <= i < k ==> es[..k][i] == es[i] && es[..k][..i] == es[..i];
  }

  /** The charge of a tracked pod is the request of the event that added it, since when it has
      been tracked all the time. */
  lemma {:induction false} ChargedWhenAdded(es: seq<Event>, n: string, u: string) returns (i: nat)
    requires u != "" && Tracks(After(es), n, u)
    ensures i < |es| && Joins(es[i], n, u) && Charged(es, n, u) == Request(es[i].pod)
    ensures !Tracks(After(es[..i]), n, u) && forall j :: i < j <= |es| ==> Tracks(After(es[..j]), n, u)
  {
    var k := |es| - 1;
    assert es[..k + 1] == es;
    TrackingStep(After(es[..k]), es[k], n, u);
    if Tracks(After(es[..k]), n, u) {
      i := ChargedWhenAdded(es[..k], n, u);
      assert es[..k][i] == es[i] && es[..k][..i] == es[..i];
    } else {
      i := k;
    }
    forall j | i < j <= |es| ensures Tracks(After(es[..j]), n, u) {
      if j <= k { assert es[..k][..j] == es[..j]; } else { assert es[..j] == es; }
    }
  }
}
