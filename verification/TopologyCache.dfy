/** The over-reserve cache as a state machine over its locked steps, and what its
    view of a node is after any run, told from the history of steps alone. */
module TopologyCache {
  import opened Options
  import opened EffectiveRequest
  import opened Topology

  datatype Report = Report(node: string, zones: seq<Zone>)

  datatype Step =
    | Reserve(node: string, pod: TopologyPod)
    | Unreserve(node: string, pod: TopologyPod)
    | Discard(node: string)
    | Foreign(node: string)
    | AttributesChanged(node: string)
    | Flush(reports: seq<Report>)

  datatype Cache = Cache(
    generation: nat,
    reports: map<string, seq<Zone>>,
    assumed: map<string, Assumed>,
    discarded: map<string, int>,
    foreign: map<string, int>,
    changed: map<string, int>)

  function Key(p: TopologyPod): string { p.namespace + "/" + p.name }

  /** Namespaces hold no slash, so different pods have different keys. */
  lemma KeysAreUnique(p: TopologyPod, q: TopologyPod)
    requires '/' !in p.namespace && '/' !in q.namespace
    requires Key(p) == Key(q)
    ensures p.namespace == q.namespace && p.name == q.name
  {
    var a, b := |p.namespace|, |q.namespace|;
    assert Key(p)[a] == '/' && Key(q)[b] == '/';
    assert forall i :: 0 <= i < a ==> Key(p)[i] == p.namespace[i] && p.namespace[i] != '/';
    assert forall i :: 0 <= i < b ==> Key(q)[i] == q.namespace[i] && q.namespace[i] != '/';
    assert a == b;
    assert p.namespace == Key(p)[..a] && q.namespace == Key(q)[..b];
    assert p.name == Key(p)[a + 1..] && q.name == Key(q)[b + 1..];
  }

  function Incremented(c: map<string, int>, key: string): map<string, int>
  {
    c[key := if key in c then c[key] + 1 else 1]
  }

  function AssumedOn(c: Cache, node: string): Assumed
  {
    if node in c.assumed then c.assumed[node] else map[]
  }

  function FlushOne(c: Cache, r: Report): Cache
  {
    c.(reports := c.reports[r.node := r.zones], assumed := c.assumed - {r.node},
       discarded := c.discarded - {r.node}, foreign := c.foreign - {r.node}, changed := c.changed - {r.node})
  }

  function FlushAll(c: Cache, rs: seq<Report>): Cache
  {
    if rs == [] then c else FlushOne(FlushAll(c, rs[..|rs| - 1]), rs[|rs| - 1])
  }

  function Next(c: Cache, s: Step): Cache
  {
    match s
    case Reserve(n, p) =>
      c.(assumed := c.assumed[n := AssumedOn(c, n)[Key(p) := Effective(p)]], discarded := c.discarded - {n})
    case Unreserve(n, p) =>
      if n in c.assumed then c.(assumed := c.assumed[n := c.assumed[n] - {Key(p)}]) else c
    case Discard(n) => c.(discarded := Incremented(c.discarded, n))
    case Foreign(n) => if n in c.reports then c.(foreign := Incremented(c.foreign, n)) else c
    case AttributesChanged(n) => if n in c.reports then c.(changed := Incremented(c.changed, n)) else c
    case Flush(rs) =>
      if rs == [] then c else FlushAll(c, rs).(generation := c.generation + 1)
  }

  function Start(reports: map<string, seq<Zone>>): Cache { Cache(0, reports, map[], map[], map[], map[]) }

  ghost function After(reports: map<string, seq<Zone>>, h: seq<Step>): Cache
  {
    if h == [] then Start(reports) else Next(After(reports, h[..|h| - 1]), h[|h| - 1])
  }

  /** What the cache serves for a node, if anything. */
  ghost function Served(c: Cache, node: string): Option<seq<Zone>>
  {
    if node in c.foreign || node !in c.reports then None
    else Some(View(c.reports[node], AssumedOn(c, node)))
  }

  // ---- The history ----

  predicate Names(rs: seq<Report>, node: string)
  {
    exists i :: 0 <= i < |rs| && rs[i].node == node
  }

  predicate Flushes(s: Step, node: string) { s.Flush? && Names(s.reports, node) }

  predicate Settles(s: Step, node: string, key: string)
  {
    || Flushes(s, node)
    || ((s.Reserve? || s.Unreserve?) && s.node == node && Key(s.pod) == key)
  }

  /** The pod with this key was reserved on the node with this request at step i,
      and nothing concerning it has happened since. */
  ghost predicate StandsSince(h: seq<Step>, node: string, key: string, req: ResourceList, i: nat)
  {
    && i < |h| && h[i].Reserve? && h[i].node == node && Key(h[i].pod) == key && Effective(h[i].pod) == req
    && forall j :: i < j < |h| ==> !Settles(h[j], node, key)
  }

  ghost predicate Standing(h: seq<Step>, node: string, key: string, req: ResourceList)
  {
    exists i: nat :: StandsSince(h, node, key, req, i)
  }

  /** zones is what the last of the reports on this node says. */
  ghost predicate LastIn(rs: seq<Report>, node: string, zones: seq<Zone>)
  {
    exists i :: 0 <= i < |rs| && rs[i] == Report(node, zones) && forall j :: i < j < |rs| ==> rs[j].node != node
  }

  ghost predicate ReportedAt(h: seq<Step>, node: string, zones: seq<Zone>, i: nat)
  {
    && i < |h| && h[i].Flush? && LastIn(h[i].reports, node, zones)
    && forall j :: i < j < |h| ==> !Flushes(h[j], node)
  }

  ghost predicate NeverFlushed(h: seq<Step>, node: string) { forall j :: 0 <= j < |h| ==> !Flushes(h[j], node) }

  /** zones is the last stored report on the node. */
  ghost predicate LastReport(reports: map<string, seq<Zone>>, h: seq<Step>, node: string, zones: seq<Zone>)
  {
    || (exists i: nat :: ReportedAt(h, node, zones, i))
    || (NeverFlushed(h, node) && node in reports && reports[node] == zones)
  }

  ghost predicate Known(reports: map<string, seq<Zone>>, h: seq<Step>, node: string)
  {
    node in reports || exists j :: 0 <= j < |h| && Flushes(h[j], node)
  }

  ghost predicate MarkedAt(reports: map<string, seq<Zone>>, h: seq<Step>, node: string, mark: Step, i: nat)
  {
    && i < |h| && h[i] == mark && Known(reports, h[..i], node)
    && forall j :: i < j < |h| ==> !Flushes(h[j], node)
  }

  /** The mark was made on the (known) node and the node has not been flushed since. */
  ghost predicate MarkedWith(reports: map<string, seq<Zone>>, h: seq<Step>, node: string, mark: Step)
  {
    exists i: nat :: MarkedAt(reports, h, node, mark, i)
  }

  /** A foreign pod was seen on the (known) node and the node has not been flushed since. */
  ghost predicate Marked(reports: map<string, seq<Zone>>, h: seq<Step>, node: string)
  {
    MarkedWith(reports, h, node, Foreign(node))
  }

  ghost predicate DiscardedAt(h: seq<Step>, node: string, i: nat)
  {
    && i < |h| && h[i] == Discard(node)
    && forall j :: i < j < |h| ==> !Flushes(h[j], node) && !(h[j].Reserve? && h[j].node == node)
  }

  /** The node was discarded, and has neither got a pod nor been flushed since. */
  ghost predicate Discarded(h: seq<Step>, node: string)
  {
    exists i: nat :: DiscardedAt(h, node, i)
  }

  ghost function NonEmptyFlushes(h: seq<Step>): nat
  {
    if h == [] then 0
    else NonEmptyFlushes(h[..|h| - 1]) + if h[|h| - 1].Flush? && h[|h| - 1].reports != [] then 1 else 0
  }

  // ---- One step ----

  /** The flush of these reports took the cache from c to d, as far as this node is concerned. */
  ghost predicate Flushed(c: Cache, d: Cache, rs: seq<Report>, node: string)
  {
    if Names(rs, node) then
      && node in d.reports && LastIn(rs, node, d.reports[node])
      && node !in d.assumed && node !in d.foreign && node !in d.discarded && node !in d.changed
    else
      && (node in d.reports <==> node in c.reports) && (node in c.reports ==> d.reports[node] == c.reports[node])
      && (node in d.assumed <==> node in c.assumed) && (node in c.assumed ==> d.assumed[node] == c.assumed[node])
      && (node in d.foreign <==> node in c.foreign) && (node in d.discarded <==> node in c.discarded)
      && (node in d.changed <==> node in c.changed)
  }

  lemma NamesStep(rs: seq<Report>, node: string)
    requires rs != []
    ensures Names(rs, node) <==> Names(rs[..|rs| - 1], node) || rs[|rs| - 1].node == node
  {
    var n := |rs| - 1;
    if Names(rs, node) && rs[n].node != node {
      var i :| 0 <= i < |rs| && rs[i].node == node;
      assert rs[..n][i].node == node;
    }
    if Names(rs[..n], node) {
      var i :| 0 <= i < n && rs[..n][i].node == node;
      assert rs[i].node == node;
    }
  }

  lemma LastInStep(rs: seq<Report>, node: string, zones: seq<Zone>)
    requires rs != []
    ensures var n := |rs| - 1;
            && (rs[n] == Report(node, zones) ==> LastIn(rs, node, zones))
            && (rs[n].node != node && LastIn(rs[..n], node, zones) ==> LastIn(rs, node, zones))
  {
    var n := |rs| - 1;
    if rs[n].node != node && LastIn(rs[..n], node, zones) {
      var i :| 0 <= i < n && rs[..n][i] == Report(node, zones) && forall j :: i < j < n ==> rs[..n][j].node != node;
      assert rs[i] == Report(node, zones);
      assert forall j :: i < j < n ==> rs[j] == rs[..n][j];
    }
  }

  lemma {:induction false} FlushAllFacts(c: Cache, rs: seq<Report>, node: string)
    ensures Flushed(c, FlushAll(c, rs), rs, node)
  {
    if rs != [] {
      var n := |rs| - 1;
      FlushAllFacts(c, rs[..n], node);
      var before := FlushAll(c, rs[..n]);
      NamesStep(rs, node);
      if node in before.reports { LastInStep(rs, node, before.reports[node]); }
      LastInStep(rs, node, rs[n].zones);
    }
  }

  lemma {:induction false} FlushKeepsGeneration(c: Cache, rs: seq<Report>)
    ensures FlushAll(c, rs).generation == c.generation
  {
    if rs != [] { FlushKeepsGeneration(c, rs[..|rs| - 1]); }
  }

  lemma LastInUnique(rs: seq<Report>, node: string, a: seq<Zone>, b: seq<Zone>)
    requires LastIn(rs, node, a) && LastIn(rs, node, b)
    ensures a == b
  {
    var i :| 0 <= i < |rs| && rs[i] == Report(node, a) && forall j :: i < j < |rs| ==> rs[j].node != node;
    var k :| 0 <= k < |rs| && rs[k] == Report(node, b) && forall j :: k < j < |rs| ==> rs[j].node != node;
    assert i == k;
  }

  lemma NextAssumed(c: Cache, s: Step, node: string, key: string)
    ensures Flushes(s, node) ==> key !in AssumedOn(Next(c, s), node)
    ensures !Settles(s, node, key) ==>
              && (key in AssumedOn(Next(c, s), node) <==> key in AssumedOn(c, node))
              && (key in AssumedOn(c, node) ==> AssumedOn(Next(c, s), node)[key] == AssumedOn(c, node)[key])
    ensures s.Unreserve? && Settles(s, node, key) ==> key !in AssumedOn(Next(c, s), node)
    ensures s.Reserve? && Settles(s, node, key) ==>
              key in AssumedOn(Next(c, s), node) && AssumedOn(Next(c, s), node)[key] == Effective(s.pod)
  {
    match s
    case Flush(rs) => FlushAllFacts(c, rs, node);
    case Reserve(n, p) => assert Next(c, s).assumed == c.assumed[n := AssumedOn(c, n)[Key(p) := Effective(p)]];
    case Unreserve(n, p) => assert n in c.assumed ==> Next(c, s).assumed == c.assumed[n := c.assumed[n] - {Key(p)}];
    case Discard(_) => assert Next(c, s).assumed == c.assumed;
    case Foreign(_) => assert Next(c, s).assumed == c.assumed;
    case AttributesChanged(_) => assert Next(c, s).assumed == c.assumed;
  }

  lemma NextReports(c: Cache, s: Step, node: string)
    ensures Flushes(s, node) ==>
              node in Next(c, s).reports && LastIn(s.reports, node, Next(c, s).reports[node]) &&
                node !in Next(c, s).foreign
    ensures !Flushes(s, node) ==>
              && (node in Next(c, s).reports <==> node in c.reports)
              && (node in c.reports ==> Next(c, s).reports[node] == c.reports[node])
              && (node in Next(c, s).foreign <==> node in c.foreign || (s == Foreign(node) && node in c.reports))
  {
    if s.Flush? { FlushAllFacts(c, s.reports, node); }
  }

  lemma StandingStep(h: seq<Step>, node: string, key: string, req: ResourceList)
    requires h != []
    ensures var k := |h| - 1;
            Standing(h, node, key, req) <==>
              || (h[k].Reserve? && h[k].node == node && Key(h[k].pod) == key && Effective(h[k].pod) == req)
              || (Standing(h[..k], node, key, req) && !Settles(h[k], node, key))
  {
    var k := |h| - 1;
    forall i: nat | i < k
      ensures StandsSince(h, node, key, req, i) <==> StandsSince(h[..k], node, key, req, i) && !Settles(h[k], node, key)
    {
      assert forall j :: 0 <= j < k ==> h[..k][j] == h[j];
    }
    if Standing(h, node, key, req) {
      var i: nat :| StandsSince(h, node, key, req, i);
      if i == k { assert h[k].Reserve?; } else { assert StandsSince(h[..k], node, key, req, i); }
    }
    if h[k].Reserve? && h[k].node == node && Key(h[k].pod) == key && Effective(h[k].pod) == req {
      assert StandsSince(h, node, key, req, k);
    }
  }

  // ---- Whole runs ----

  /** After any run, a pod is charged to a node with a request exactly when the
      history says that reservation still stands. */
  lemma {:induction false} ChargesFollowHistory(reports: map<string, seq<Zone>>, h: seq<Step>, node: string,
                                                key: string, req: ResourceList)
    ensures var a := AssumedOn(After(reports, h), node);
            key in a && a[key] == req <==> Standing(h, node, key, req)
  {
    if h != [] {
      var k := |h| - 1;
      ChargesFollowHistory(reports, h[..k], node, key, req);
      NextAssumed(After(reports, h[..k]), h[k], node, key);
      StandingStep(h, node, key, req);
    }
  }

  lemma {:induction false} ReportsFollowHistory(reports: map<string, seq<Zone>>, h: seq<Step>, node: string)
    ensures var c := After(reports, h);
            && (node in c.reports <==> Known(reports, h, node))
            && (node in c.reports ==> LastReport(reports, h, node, c.reports[node]))
  {
    if h != [] {
      var k := |h| - 1;
      var before, c := After(reports, h[..k]), After(reports, h);
      ReportsFollowHistory(reports, h[..k], node);
      NextReports(before, h[k], node);
      KnownStep(reports, h, node);
      if Flushes(h[k], node) {
        assert ReportedAt(h, node, c.reports[node], k);
      } else if node in c.reports {
        LastReportStep(reports, h, node, before.reports[node]);
      }
    }
  }

  lemma KnownStep(reports: map<string, seq<Zone>>, h: seq<Step>, node: string)
    requires h != []
    ensures Known(reports, h, node) <==> Known(reports, h[..|h| - 1], node) || Flushes(h[|h| - 1], node)
  {
    var k := |h| - 1;
    assert forall j :: 0 <= j < k ==> h[..k][j] == h[j];
    if Known(reports, h, node) && node !in reports {
      var j :| 0 <= j < |h| && Flushes(h[j], node);
      assert j == k || Flushes(h[..k][j], node);
    }
  }

  lemma LastReportStep(reports: map<string, seq<Zone>>, h: seq<Step>, node: string, zones: seq<Zone>)
    requires h != [] && !Flushes(h[|h| - 1], node) && LastReport(reports, h[..|h| - 1], node, zones)
    ensures LastReport(reports, h, node, zones)
  {
    var k := |h| - 1;
    assert forall j :: 0 <= j < k ==> h[..k][j] == h[j];
    if i: nat :| ReportedAt(h[..k], node, zones, i) {
      assert ReportedAt(h, node, zones, i);
    }
  }

  lemma MarkedAtStep(reports: map<string, seq<Zone>>, h: seq<Step>, node: string, mark: Step, i: nat)
    requires i < |h| - 1
    ensures MarkedAt(reports, h, node, mark, i) <==>
            MarkedAt(reports, h[..|h| - 1], node, mark, i) && !Flushes(h[|h| - 1], node)
  {
    var k := |h| - 1;
    assert h[..k][..i] == h[..i];
    assert forall j :: 0 <= j < k ==> h[..k][j] == h[j];
  }

  lemma MarkedStep(reports: map<string, seq<Zone>>, h: seq<Step>, node: string, mark: Step)
    requires h != []
    ensures var k := |h| - 1;
            MarkedWith(reports, h, node, mark) <==>
              || (h[k] == mark && Known(reports, h[..k], node))
              || (MarkedWith(reports, h[..k], node, mark) && !Flushes(h[k], node))
  {
    var k := |h| - 1;
    if MarkedWith(reports, h, node, mark) {
      var i: nat :| MarkedAt(reports, h, node, mark, i);
      if i < k { MarkedAtStep(reports, h, node, mark, i); }
    }
    if h[k] == mark && Known(reports, h[..k], node) {
      assert MarkedAt(reports, h, node, mark, k);
    }
    if MarkedWith(reports, h[..k], node, mark) && !Flushes(h[k], node) {
      var i: nat :| MarkedAt(reports, h[..k], node, mark, i);
      MarkedAtStep(reports, h, node, mark, i);
    }
  }

  lemma {:induction false} MarksFollowHistory(reports: map<string, seq<Zone>>, h: seq<Step>, node: string)
    ensures node in After(reports, h).foreign <==> Marked(reports, h, node)
    ensures node in After(reports, h).changed <==> MarkedWith(reports, h, node, AttributesChanged(node))
  {
    if h != [] {
      var k := |h| - 1;
      MarksFollowHistory(reports, h[..k], node);
      ReportsFollowHistory(reports, h[..k], node);
      NextMarks(After(reports, h[..k]), h[k], node);
      MarkedStep(reports, h, node, Foreign(node));
      MarkedStep(reports, h, node, AttributesChanged(node));
    }
  }

  lemma NextMarks(c: Cache, s: Step, node: string)
    ensures node in Next(c, s).foreign <==>
            !Flushes(s, node) && (node in c.foreign || (s == Foreign(node) && node in c.reports))
    ensures node in Next(c, s).changed <==>
            !Flushes(s, node) && (node in c.changed || (s == AttributesChanged(node) && node in c.reports))
    ensures node in Next(c, s).discarded <==>
            !Flushes(s, node) && !(s.Reserve? && s.node == node) && (node in c.discarded || s == Discard(node))
  {
    if s.Flush? { FlushAllFacts(c, s.reports, node); }
  }

  lemma DiscardedStep(h: seq<Step>, node: string)
    requires h != []
    ensures var k := |h| - 1;
            Discarded(h, node) <==>
              || h[k] == Discard(node)
              || (Discarded(h[..k], node) && !Flushes(h[k], node) && !(h[k].Reserve? && h[k].node == node))
  {
    var k := |h| - 1;
    assert forall j :: 0 <= j < k ==> h[..k][j] == h[j];
    if Discarded(h, node) && h[k] != Discard(node) {
      var i: nat :| DiscardedAt(h, node, i);
      assert DiscardedAt(h[..k], node, i);
    }
    if h[k] == Discard(node) { assert DiscardedAt(h, node, k); }
    if Discarded(h[..k], node) && !Flushes(h[k], node) && !(h[k].Reserve? && h[k].node == node) {
      var i: nat :| DiscardedAt(h[..k], node, i);
      assert DiscardedAt(h, node, i);
    }
  }

  lemma {:induction false} DiscardsFollowHistory(reports: map<string, seq<Zone>>, h: seq<Step>, node: string)
    ensures node in After(reports, h).discarded <==> Discarded(h, node)
  {
    if h != [] {
      var k := |h| - 1;
      DiscardsFollowHistory(reports, h[..k], node);
      NextMarks(After(reports, h[..k]), h[k], node);
      DiscardedStep(h, node);
    }
  }

  lemma {:induction false} GenerationCountsFlushes(reports: map<string, seq<Zone>>, h: seq<Step>)
    ensures After(reports, h).generation == NonEmptyFlushes(h)
  {
    if h != [] {
      var k := |h| - 1;
      GenerationCountsFlushes(reports, h[..k]);
      if h[k].Flush? && h[k].reports != [] { FlushKeepsGeneration(After(reports, h[..k]), h[k].reports); }
    }
  }

  /** In every run: a node marked with foreign pods, or never reported, serves nothing;
      any other node serves the last stored report, each zone reduced by the requests of
      exactly the pods reserved and not unreserved since the node's last flush. */
  lemma ServedViewIsPessimistic(reports: map<string, seq<Zone>>, h: seq<Step>, node: string, assumed: Assumed,
                                zones: seq<Zone>)
    requires forall key, req :: key in assumed && assumed[key] == req <==> Standing(h, node, key, req)
    requires Known(reports, h, node) ==> LastReport(reports, h, node, zones)
    ensures Served(After(reports, h), node) ==
            if Marked(reports, h, node) || !Known(reports, h, node) then None else Some(View(zones, assumed))
    ensures Served(After(reports, h), node).Some? ==>
              var view := Served(After(reports, h), node).value;
              && |view| == |zones|
              && forall z, i :: 0 <= z < |zones| && 0 <= i < |zones[z].resources| ==>
                   && |view[z].resources| == |zones[z].resources| && view[z].id == zones[z].id
                   && var reported, shown := zones[z].resources[i], view[z].resources[i];
                      var asked := Demand(assumed, reported.name);
                      && shown.name == reported.name
                      && shown.available == if reported.available < asked then 0 else reported.available - asked
  {
    ViewAmounts(zones, assumed);
    var c := After(reports, h);
    MarksFollowHistory(reports, h, node);
    ReportsFollowHistory(reports, h, node);
    forall key ensures key in AssumedOn(c, node) <==> key in assumed
               ensures key in assumed ==> AssumedOn(c, node)[key] == assumed[key] {
      if key in assumed { ChargesFollowHistory(reports, h, node, key, assumed[key]); }
      if key in AssumedOn(c, node) { ChargesFollowHistory(reports, h, node, key, AssumedOn(c, node)[key]); }
    }
    assert AssumedOn(c, node) == assumed;
    if node in c.reports {
      LastReportUnique(reports, h, node, c.reports[node], zones);
    }
  }

  lemma LastReportUnique(reports: map<string, seq<Zone>>, h: seq<Step>, node: string, a: seq<Zone>, b: seq<Zone>)
    requires LastReport(reports, h, node, a) && LastReport(reports, h, node, b)
    ensures a == b
  {
    if i: nat :| ReportedAt(h, node, a, i) {
      ReportedIsFlush(h, node, a, i);
      if k: nat :| ReportedAt(h, node, b, k) {
        ReportedIsFlush(h, node, b, k);
        assert i == k;
        LastInUnique(h[i].reports, node, a, b);
      }
    } else {
      if k: nat :| ReportedAt(h, node, b, k) {
        ReportedIsFlush(h, node, b, k);
      }
    }
  }

  lemma ReportedIsFlush(h: seq<Step>, node: string, zones: seq<Zone>, i: nat)
    requires ReportedAt(h, node, zones, i)
    ensures Flushes(h[i], node)
  {
    var rs := h[i].reports;
    var m :| 0 <= m < |rs| && rs[m] == Report(node, zones) && forall j :: m < j < |rs| ==> rs[j].node != node;
    assert rs[m].node == node;
  }
}
