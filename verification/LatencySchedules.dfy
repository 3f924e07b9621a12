/** The disk latency check remembers metric ids for the whole process (pkg/check/node_perf.go), so what it asks a
    vCenter for can depend on which node called first. When it does, and when its results do not. */
module LatencySchedules {
  import opened Options
  import opened ThreadPool
  import opened PoolTheorems
  import opened ResultCollection
  import opened Round
  import opened RoundTheorems
  import opened RoundCounts
  import opened ClaimingChecks
  import opened ClaimSchedules
  import opened ClaimRuns
  import opened ClaimTheorems
  import opened RoundShapes
  import P = NodePerf

  type Ids = map<string, P.PerfMetricId>

  // ---------------------------------------------------------------- one call

  /** What the check meets at a node; `data` is the answer to a query with an id. */
  datatype Latency = Latency(
    metric: P.MetricCheck, labels: Node -> set<string>, vcenterError: Node -> Option<string>,
    catalog: Node -> P.Catalog, data: (Node, P.PerfMetricId) -> Option<P.PerfData>)

  predicate IsChecked(q: Latency, n: Node) {
    if P.MASTER_LABEL in q.labels(n) then q.metric.checkMasters
    else P.WORKER_LABEL in q.labels(n) && q.metric.checkWorkers
  }

  /** The call gets as far as the ids. */
  predicate Asks(q: Latency, n: Node) {
    IsChecked(q, n) && q.vcenterError(n).None?
  }

  function IdsAfterCall(q: Latency, ids: Ids, n: Node): Ids {
    if Asks(q, n) then P.Remembered(ids, q.catalog(n)) else ids
  }

  ghost predicate IsSlow(q: Latency, n: Node, id: P.PerfMetricId) {
    var data := q.data(n, id);
    data.Some? && exists e :: 0 <= e < |data.value| && P.AnyTooSlow(data.value[e], q.metric.errorLevel)
  }

  /** The verdict when the metric has this id. */
  ghost function VerdictWith(q: Latency, n: Node, id: Option<P.PerfMetricId>): Option<string> {
    if id.Some? && IsSlow(q, n, id.value) then Some(q.metric.message) else None
  }

  /** The verdict of a call that finds these ids. */
  ghost function LatencyVerdict(q: Latency, ids: Ids, n: Node): Option<string> {
    if !IsChecked(q, n) then None
    else if q.vcenterError(n).Some? then q.vcenterError(n)
    else VerdictWith(q, n, P.IdIn(IdsAfterCall(q, ids, n), q.metric.metricName))
  }

  /** CheckNode on the process-wide ids. */
  method CheckNode(ids: P.PerfMetricIDs, q: Latency, n: Node) returns (err: Option<string>)
    modifies ids
    ensures err == LatencyVerdict(q, old(ids.perfMetricIDMap), n)
    ensures ids.perfMetricIDMap == IdsAfterCall(q, old(ids.perfMetricIDMap), n)
  {
    var id := P.IdIn(P.Remembered(ids.perfMetricIDMap, q.catalog(n)), q.metric.metricName);
    var data := if id.Some? then q.data(n, id.value) else None;
    var r := P.PerformMetricCheck(ids, q.labels(n), q.metric, q.vcenterError(n).None?, q.catalog(n), data);
    match r
    case Passed => err := None;
    case VCenterUnknown => err := q.vcenterError(n);
    case Failed(message) => err := Some(message);
  }

  function IdsAfter(q: Latency, ids: Ids, calls: seq<Node>): Ids {
    if calls == [] then ids else IdsAfterCall(q, IdsAfter(q, ids, calls[..|calls| - 1]), calls[|calls| - 1])
  }

  /** The id of the check's metric after some calls. */
  function IdAfter(q: Latency, ids: Ids, calls: seq<Node>): Option<P.PerfMetricId> {
    P.IdIn(IdsAfter(q, ids, calls), q.metric.metricName)
  }

  // ---------------------------------------------------------------- the first call that teaches

  predicate IsTeaching(q: Latency, n: Node) {
    Asks(q, n) && P.Teaches(q.catalog(n))
  }

  const IDS := "ids"

  /** The calls that teach compete for the ids as other checks' calls do for a key. */
  function Teaching(q: Latency): Claiming {
    Claiming(n => if IsTeaching(q, n) then Some(IDS) else None, _ => None, _ => None)
  }

  lemma {:induction false} IdsOfClaimant(q: Latency, ids: Ids, calls: seq<Node>)
    ensures var first := Claimant(Teaching(q), calls, IDS);
      IdsAfter(q, ids, calls)
      == if ids != map[] then ids else if first.Some? then P.MetricIds(q.catalog(first.value)).value else map[]
  {
    if calls != [] {
      var init, last := calls[..|calls| - 1], calls[|calls| - 1];
      IdsOfClaimant(q, ids, init);
      var first := Claimant(Teaching(q), init, IDS);
      if first.Some? { assert IsTeaching(q, first.value); }
    }
  }

  /** The id that a node's vCenter has for the metric. */
  function OwnId(q: Latency, n: Node): Option<P.PerfMetricId> {
    P.OwnId(q.catalog(n), q.metric.metricName)
  }

  lemma IdOfClaimant(q: Latency, calls: seq<Node>)
    ensures var first := Claimant(Teaching(q), calls, IDS);
      IdAfter(q, map[], calls) == if first.Some? then OwnId(q, first.value) else None
  {
    IdsOfClaimant(q, map[], calls);
    var first := Claimant(Teaching(q), calls, IDS);
    if first.Some? { assert IsTeaching(q, first.value); }
  }

  // ---------------------------------------------------------------- rounds

  /** The oracle's verdicts are those of the check, called in this order. */
  ghost predicate AsAsked(i: Input, check: string, q: Latency, ids: Ids, calls: seq<Node>) {
    forall k :: 0 <= k < |calls| ==>
      i.nodeError(check, calls[k]) == LatencyVerdict(q, IdsAfter(q, ids, calls[..k]), calls[k])
  }

  /** A completed round of these nodes, begun with these ids, in which the check answers as it was called. */
  ghost predicate RoundAsAsked(i: Input, check: string, q: Latency, ids: Ids, p: nat,
                               j: Input, c: Config<Event>, s: State<Event>)
  {
    && SameButVerdicts(i, j, check) && RoundCompleted(j, c, s) && c.parallelism == p
    && AsAsked(j, check, q, ids, Visits(s.log, check))
  }

  /** The verdict on a node in some calls. */
  ghost function VerdictIn(q: Latency, ids: Ids, calls: seq<Node>, n: Node): Option<string> {
    if calls == [] then None
    else
      var init, last := calls[..|calls| - 1], calls[|calls| - 1];
      if n == last then LatencyVerdict(q, IdsAfter(q, ids, init), n) else VerdictIn(q, ids, init, n)
  }

  lemma {:induction false} VerdictAtCall(q: Latency, ids: Ids, calls: seq<Node>, k: nat)
    requires k < |calls| && Distinct(calls)
    ensures VerdictIn(q, ids, calls, calls[k]) == LatencyVerdict(q, IdsAfter(q, ids, calls[..k]), calls[k])
  {
    var n := |calls| - 1;
    if k < n {
      var init := calls[..n];
      assert init[..k] == calls[..k] && init[k] == calls[k] && calls[k] != calls[n];
      VerdictAtCall(q, ids, init, k);
    }
  }

  ghost function WithVerdicts(i: Input, check: string, q: Latency, ids: Ids, calls: seq<Node>): Input {
    i.(nodeError := (k: string, n: Node) => if k == check then VerdictIn(q, ids, calls, n) else i.nodeError(k, n))
  }

  /** The calls of any completed round are those of one in which the check answers as it was called. */
  lemma AnswersFit(i: Input, c: Config<Event>, s: State<Event>, check: string, q: Latency, ids: Ids)
      returns (j: Input, d: Config<Event>, t: State<Event>)
    requires RoundCompleted(i, c, s) && DistinctNames(i) && check in i.nodeChecks
    requires Distinct(VSphereNodes(i.nodes.value))
    ensures RoundAsAsked(i, check, q, ids, c.parallelism, j, d, t)
    ensures Visits(t.log, check) == Visits(s.log, check)
  {
    var calls := Visits(s.log, check);
    VisitsAreDistinct(i, c, s, check);
    j := WithVerdicts(i, check, q, ids, calls);
    d, t := VerdictsDoNotSchedule(i, c, s, j, check);
    forall k | 0 <= k < |calls|
      ensures j.nodeError(check, calls[k]) == LatencyVerdict(q, IdsAfter(q, ids, calls[..k]), calls[k])
    {
      VerdictAtCall(q, ids, calls, k);
    }
  }

  // ---------------------------------------------------------------- the id in use

  /** The found nodes that teach, in the order of the list. */
  function Teachers(i: Input, q: Latency): seq<Node>
    requires i.nodes.Some?
  {
    Keyed(i, Teaching(q), IDS, VSphereNodes(i.nodes.value))
  }

  /** The first of them, as many as there are workers, have the same id for the metric. */
  ghost predicate FirstTeachersAgree(i: Input, q: Latency, p: nat)
    requires i.nodes.Some?
  {
    forall a :: 0 <= a < p && a < |Teachers(i, q)| ==> OwnId(q, Teachers(i, q)[a]) == OwnId(q, Teachers(i, q)[0])
  }

  /** The node whose vCenter's ids a round without ids learns is one of those. */
  lemma LearnedFromEarlyTeacher(i: Input, c: Config<Event>, s: State<Event>, check: string, q: Latency) returns (a: nat)
    requires RoundCompleted(i, c, s) && check in i.nodeChecks
    requires Claimant(Teaching(q), Visits(s.log, check), IDS).Some?
    ensures a < c.parallelism && a < |Teachers(i, q)|
    ensures Claimant(Teaching(q), Visits(s.log, check), IDS).value == Teachers(i, q)[a]
  {
    a := ClaimantIsEarly(i, c, s, check, Teaching(q), IDS);
  }

  /** Which id a round learns, when the first teachers agree. */
  lemma LearnsAgreedId(i: Input, c: Config<Event>, s: State<Event>, check: string, q: Latency)
    requires RoundCompleted(i, c, s) && check in i.nodeChecks && FirstTeachersAgree(i, q, c.parallelism)
    ensures var first := Claimant(Teaching(q), Visits(s.log, check), IDS);
      first.Some? ==> |Teachers(i, q)| > 0 && OwnId(q, first.value) == OwnId(q, Teachers(i, q)[0])
  {
    if Claimant(Teaching(q), Visits(s.log, check), IDS).Some? {
      var a := LearnedFromEarlyTeacher(i, c, s, check, q);
    }
  }

  lemma SameTeachers(i: Input, j: Input, check: string, q: Latency)
    requires SameButVerdicts(i, j, check)
    ensures Teachers(j, q) == Teachers(i, q)
  {
    SameKeyed(i, j, Teaching(q), IDS, VSphereNodes(i.nodes.value));
  }

  /** All rounds of these nodes with `p` workers end with the same id for the metric. */
  ghost predicate IdIsFixed(i: Input, check: string, q: Latency, ids: Ids, p: nat) {
    forall j, c, s, k, d, t ::
      RoundAsAsked(i, check, q, ids, p, j, c, s) && RoundAsAsked(i, check, q, ids, p, k, d, t) ==>
      IdAfter(q, ids, Visits(s.log, check)) == IdAfter(q, ids, Visits(t.log, check))
  }

  lemma SameIdWhenAgree(i: Input, check: string, q: Latency, p: nat, j: Input, c: Config<Event>, s: State<Event>,
                        k: Input, d: Config<Event>, t: State<Event>)
    requires i.nodes.Some? && DistinctNames(i) && check in i.nodeChecks && FirstTeachersAgree(i, q, p)
    requires RoundAsAsked(i, check, q, map[], p, j, c, s) && RoundAsAsked(i, check, q, map[], p, k, d, t)
    ensures IdAfter(q, map[], Visits(s.log, check)) == IdAfter(q, map[], Visits(t.log, check))
  {
    SameTeachers(i, j, check, q);
    SameTeachers(i, k, check, q);
    LearnsAgreedId(j, c, s, check, q);
    LearnsAgreedId(k, d, t, check, q);
    VisitsOfBoth(j, c, s, k, d, t, check);
    SameClaimants(Teaching(q), Visits(s.log, check), Visits(t.log, check));
    IdOfClaimant(q, Visits(s.log, check));
    IdOfClaimant(q, Visits(t.log, check));
  }

  /** Any teacher of a rank below the number of workers can be the one whose ids are learned. */
  lemma AnyEarlyTeacherCanTeach(i: Input, check: string, q: Latency, p: nat, a: nat)
      returns (j: Input, c: Config<Event>, s: State<Event>)
    requires i.nodes.Some? && DistinctNames(i) && check in i.nodeChecks && Distinct(VSphereNodes(i.nodes.value))
    requires a < p && a < |Teachers(i, q)|
    ensures RoundAsAsked(i, check, q, map[], p, j, c, s)
    ensures IdAfter(q, map[], Visits(s.log, check)) == OwnId(q, Teachers(i, q)[a])
  {
    var k, d, t := AnyEarlyNodeCanClaim(i, check, Teaching(q), p, 0, IDS, a);
    ClaimantOfKey(i, Teaching(q), IDS, a, VSphereNodes(i.nodes.value), check, t.log);
    j, c, s := AnswersFit(k, d, t, check, q, map[]);
    IdOfClaimant(q, Visits(s.log, check));
  }

  /** The id in use does not depend on the schedule exactly when the process has ids already, or the first teachers,
      as many as there are workers, agree on it. */
  lemma IdIsFixedExactlyWhenTeachersAgree(i: Input, check: string, q: Latency, ids: Ids, p: nat)
    requires i.nodes.Some? && DistinctNames(i) && check in i.nodeChecks && Distinct(VSphereNodes(i.nodes.value))
    ensures IdIsFixed(i, check, q, ids, p) <==> ids != map[] || FirstTeachersAgree(i, q, p)
  {
    if ids != map[] {
      forall calls ensures IdsAfter(q, ids, calls) == ids { IdsOfClaimant(q, ids, calls); }
    } else if FirstTeachersAgree(i, q, p) {
      forall j, c, s, k, d, t |
        RoundAsAsked(i, check, q, ids, p, j, c, s) && RoundAsAsked(i, check, q, ids, p, k, d, t)
        ensures IdAfter(q, ids, Visits(s.log, check)) == IdAfter(q, ids, Visits(t.log, check))
      {
        SameIdWhenAgree(i, check, q, p, j, c, s, k, d, t);
      }
    } else {
      var a: nat :| a < p && a < |Teachers(i, q)| && OwnId(q, Teachers(i, q)[a]) != OwnId(q, Teachers(i, q)[0]);
      var j, c, s := AnyEarlyTeacherCanTeach(i, check, q, p, 0);
      var k, d, t := AnyEarlyTeacherCanTeach(i, check, q, p, a);
    }
  }

  // ---------------------------------------------------------------- the results

  /** Nodes that ask but do not teach would pass with the agreed id, so it does not matter whether they call before
      it is known. */
  ghost predicate OthersPass(i: Input, q: Latency)
    requires i.nodes.Some?
  {
    forall n :: n in FoundNodes(i) && Asks(q, n) && !IsTeaching(q, n) && Teachers(i, q) != [] ==>
      VerdictWith(q, n, OwnId(q, Teachers(i, q)[0])) == None
  }

  /** The verdict on a node in every order of the calls. */
  ghost function SettledVerdict(i: Input, q: Latency, ids: Ids, n: Node): Option<string>
    requires i.nodes.Some?
  {
    if ids != map[] || !IsTeaching(q, n) || Teachers(i, q) == [] then LatencyVerdict(q, ids, n)
    else VerdictWith(q, n, OwnId(q, Teachers(i, q)[0]))
  }

  lemma CallIsSettled(i: Input, c: Config<Event>, s: State<Event>, check: string, q: Latency, ids: Ids, k: nat)
    requires RoundCompleted(i, c, s) && DistinctNames(i) && check in i.nodeChecks && k < |Visits(s.log, check)|
    requires ids != map[] || (FirstTeachersAgree(i, q, c.parallelism) && OthersPass(i, q))
    ensures var calls := Visits(s.log, check);
      LatencyVerdict(q, IdsAfter(q, ids, calls[..k]), calls[k]) == SettledVerdict(i, q, ids, calls[k])
  {
    var calls := Visits(s.log, check);
    var n := calls[k];
    IdsOfClaimant(q, ids, calls[..k]);
    if ids == map[] && Asks(q, n) {
      VisitedIsFound(i, c, s, check, n);
      LearnsAgreedId(i, c, s, check, q);
      IdAtCall(q, calls, k);
    }
  }

  lemma VisitedIsFound(i: Input, c: Config<Event>, s: State<Event>, check: string, n: Node)
    requires RoundCompleted(i, c, s) && DistinctNames(i) && check in i.nodeChecks && n in Visits(s.log, check)
    ensures n in FoundNodes(i)
  {
    NamesApart(i);
    EachFoundNodeVisitedOnce(i, c, s, check);
    assert n in multiset(Visits(s.log, check));
  }

  /** The id that call `k` uses is that of the round's first teacher, or unknown before it. */
  lemma IdAtCall(q: Latency, calls: seq<Node>, k: nat)
    requires k < |calls| && Asks(q, calls[k])
    ensures var first := Claimant(Teaching(q), calls, IDS);
      var id := P.IdIn(IdsAfterCall(q, IdsAfter(q, map[], calls[..k]), calls[k]), q.metric.metricName);
      && (IsTeaching(q, calls[k]) ==> first.Some? && id == OwnId(q, first.value))
      && (id == None || (first.Some? && id == OwnId(q, first.value)))
  {
    var upTo := calls[..k + 1];
    assert upTo[..k] == calls[..k] && upTo[k] == calls[k];
    assert IdsAfter(q, map[], upTo) == IdsAfterCall(q, IdsAfter(q, map[], calls[..k]), calls[k]);
    IdOfClaimant(q, upTo);
    if Claimant(Teaching(q), upTo, IDS).Some? { ClaimantStays(Teaching(q), calls, k + 1, IDS); }
    if IsTeaching(q, calls[k]) { assert calls[k] in upTo; }
  }

  lemma {:induction false} SameVerdictsWhereFound(i: Input, j: Input, check: string, nodes: seq<Node>)
    requires forall n :: j.lookupError(n) == i.lookupError(n)
    requires forall n :: n in Found(i, nodes) ==> j.nodeError(check, n) == i.nodeError(check, n)
    ensures Verdicts(i, check, nodes) == Verdicts(j, check, nodes)
  {
    if nodes != [] {
      var init, last := nodes[..|nodes| - 1], nodes[|nodes| - 1];
      forall n | n in Found(i, init) ensures j.nodeError(check, n) == i.nodeError(check, n) {
        assert n in Found(i, nodes);
      }
      SameVerdictsWhereFound(i, j, check, init);
      if i.lookupError(last).None? { assert last in Found(i, nodes); }
    }
  }

  /** A found node's verdict is the settled one. */
  lemma FoundIsSettled(i: Input, c: Config<Event>, s: State<Event>, check: string, q: Latency, ids: Ids, n: Node)
    requires RoundCompleted(i, c, s) && DistinctNames(i) && check in i.nodeChecks && n in FoundNodes(i)
    requires AsAsked(i, check, q, ids, Visits(s.log, check))
    requires ids != map[] || (FirstTeachersAgree(i, q, c.parallelism) && OthersPass(i, q))
    ensures i.nodeError(check, n) == SettledVerdict(i, q, ids, n)
  {
    NamesApart(i);
    EachFoundNodeVisitedOnce(i, c, s, check);
    var calls := Visits(s.log, check);
    assert n in multiset(FoundNodes(i)) && n in multiset(calls);
    var k: nat :| k < |calls| && calls[k] == n;
    CallIsSettled(i, c, s, check, q, ids, k);
  }

  /** When the process has ids, or the first teachers agree and all who do not teach would pass, any two rounds of
      the same nodes store the same results, whatever their schedules. */
  lemma LatencyScheduleDoesNotMatter(i: Input, check: string, q: Latency, ids: Ids, p: nat,
                                     j: Input, c: Config<Event>, s: State<Event>,
                                     k: Input, d: Config<Event>, t: State<Event>)
    requires i.nodes.Some? && DistinctNames(i) && check in i.nodeChecks
    requires RoundAsAsked(i, check, q, ids, p, j, c, s) && RoundAsAsked(i, check, q, ids, p, k, d, t)
    requires ids != map[] || (FirstTeachersAgree(i, q, p) && OthersPass(i, q))
    ensures multiset(Stored(Collected(s.log), check)) == multiset(Stored(Collected(t.log), check))
  {
    var vs := VSphereNodes(i.nodes.value);
    SameTeachers(i, j, check, q);
    SameTeachers(i, k, check, q);
    SameFound(i, j, vs, None);
    SameFound(i, k, vs, None);
    forall n | n in Found(j, vs) ensures k.nodeError(check, n) == j.nodeError(check, n) {
      FoundIsSettled(j, c, s, check, q, ids, n);
      FoundIsSettled(k, d, t, check, q, ids, n);
    }
    SameVerdictsWhereFound(j, k, check, vs);
    NamesApart(i);
    ResultsConserved(j, c, s, check);
    ResultsConserved(k, d, t, check);
  }
}
