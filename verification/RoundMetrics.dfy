/** The metrics of a round: the checks add them in FinishCheck only (pkg/check/node_esxi_version.go,
    node_hw_version.go, node_cbt.go), between StartMetricCollection and FinishedAllChecks of
    pkg/operator/vsphere_check.go. */
module RoundMetrics {
  import opened Options
  import opened ThreadPool
  import opened PoolTheorems
  import opened PoolSchedules
  import opened Round
  import opened RoundTheorems
  import opened RoundProtocol
  import M = MetricsCollector

  // ---------------------------------------------------------------- which checks have finished

  /** The checks whose FinishCheck was called, in the order of the calls. */
  function FinishedIn(log: seq<Entry<Event>>): seq<string> {
    if log == [] then []
    else
      var last := log[|log| - 1].event;
      FinishedIn(log[..|log| - 1]) + if last.FinishCheck? then [last.check] else []
  }

  /** Those that the main goroutine finishes in its first `n` statements. */
  function FinishedBefore(script: seq<Op<Event>>, n: nat): seq<string>
    requires n <= |script|
  {
    if n == 0 then []
    else
      var op := script[n - 1];
      FinishedBefore(script, n - 1) + if op.Emit? && op.event.FinishCheck? then [op.event.check] else []
  }

  ghost predicate TasksDoNotFinish(c: Config<Event>) {
    forall t: nat, e :: e in Body(c, t) ==> !e.FinishCheck?
  }

  ghost predicate FinishedSoFar(c: Config<Event>, s: State<Event>) {
    s.pc <= |c.script| && FinishedIn(s.log) == FinishedBefore(c.script, s.pc)
  }

  lemma FinishedAppend(log: seq<Entry<Event>>, x: Entry<Event>)
    ensures FinishedIn(log + [x]) == FinishedIn(log) + if x.event.FinishCheck? then [x.event.check] else []
  {
    assert (log + [x])[..|log|] == log;
  }

  lemma FinishedStep(c: Config<Event>, s: State<Event>, a: Action)
    requires Inv(c, s) && TasksDoNotFinish(c) && FinishedSoFar(c, s) && Enabled(c, s, a)
    ensures FinishedSoFar(c, Next(c, s, a))
  {
    if a.EmitNext? {
      FinishedAppend(s.log, Entry(s.pc, c.script[s.pc].event));
    } else if a.Work? {
      var t := s.workers[a.w].task;
      FinishedAppend(s.log, Entry(t, Body(c, t)[s.Pos(t)]));
    }
  }

  lemma {:induction false} FinishedAlong(c: Config<Event>, s: State<Event>, trace: seq<Action>, s': State<Event>)
    requires WaitIsLast(c.script) && TasksDoNotFinish(c) && Reachable(c, s) && FinishedSoFar(c, s)
    requires Run(c, s, trace, s')
    ensures FinishedSoFar(c, s')
    decreases |trace|
  {
    if trace != [] {
      ReachableInv(c, s);
      FinishedStep(c, s, trace[0]);
      var next := Reach(c, s, trace[0]);
      FinishedAlong(c, next, trace[1..], s');
    }
  }

  /** In any run, the checks that have finished are those that the main goroutine has passed. */
  lemma FinishedByMain(c: Config<Event>, s: State<Event>)
    requires WaitIsLast(c.script) && TasksDoNotFinish(c) && Reachable(c, s)
    ensures FinishedSoFar(c, s)
  {
    var trace :| Run(c, Init(c), trace, s);
    assert Run(c, Init(c), [], Init(c));
    FinishedAlong(c, Init(c), trace, s);
  }

  // ---------------------------------------------------------------- in a round

  lemma RoundTasksDoNotFinish(i: Input, c: Config<Event>)
    requires c.script == ScriptOf(i)
    ensures TasksDoNotFinish(c)
  {
    forall t: nat, e | e in Body(c, t) ensures !e.FinishCheck? {
      if i.nodes.Some? {
        ScriptLayout(i, t);
        StatementKinds(i, VSphereNodes(i.nodes.value), t, e);
      } else {
        ClusterEventKinds(i, i.clusterChecks[t], e);
      }
    }
  }

  lemma {:induction false} NothingFinished(script: seq<Op<Event>>, n: nat)
    requires n <= |script| && forall o :: 0 <= o < n && script[o].Emit? ==> !script[o].event.FinishCheck?
    ensures FinishedBefore(script, n) == []
  {
    if n > 0 { NothingFinished(script, n - 1); }
  }

  lemma NothingFinishedBeforeWait(i: Input, n: nat)
    requires n <= |ScriptOf(i)| && (i.nodes.Some? ==> n <= WaitIndex(i) + 1)
    ensures FinishedBefore(ScriptOf(i), n) == []
  {
    forall o: nat | o < n && ScriptOf(i)[o].Emit? ensures !ScriptOf(i)[o].event.FinishCheck? {
      if i.nodes.Some? { ScriptLayout(i, o); }
    }
    NothingFinished(ScriptOf(i), n);
  }

  /** Statement `first + k` finishes check `k`. */
  ghost predicate Finishes(script: seq<Op<Event>>, first: nat, checks: seq<string>, k: nat) {
    k < |checks| && first + k < |script| && script[first + k] == Emit(FinishCheck(checks[k]))
  }

  lemma FinishOne(script: seq<Op<Event>>, first: nat, checks: seq<string>, k: nat)
    requires Finishes(script, first, checks, k) && FinishedBefore(script, first + k) == checks[..k]
    ensures FinishedBefore(script, first + k + 1) == checks[..k + 1]
  {
    assert checks[..k + 1] == checks[..k] + [checks[k]];
  }

  lemma {:induction false} FinishedFrom(script: seq<Op<Event>>, first: nat, checks: seq<string>, m: nat)
    requires m <= |checks| && first + |checks| <= |script| && FinishedBefore(script, first) == []
    requires forall k: nat :: k < |checks| ==> Finishes(script, first, checks, k)
    ensures FinishedBefore(script, first + m) == checks[..m]
  {
    if m > 0 {
      FinishedFrom(script, first, checks, m - 1);
      FinishOne(script, first, checks, m - 1);
    }
  }

  lemma RoundLength(i: Input)
    requires i.nodes.Some?
    ensures |ScriptOf(i)| == WaitIndex(i) + 1 + |i.nodeChecks|
  {
    ScriptLayout(i, 0);
  }

  lemma FinishesAfterWait(i: Input, k: nat)
    requires i.nodes.Some? && k < |i.nodeChecks|
    ensures Finishes(ScriptOf(i), WaitIndex(i) + 1, i.nodeChecks, k)
  {
    RoundLength(i);
    ScriptLayout(i, WaitIndex(i) + 1 + k);
  }

  lemma FinishesComeAt(i: Input, script: seq<Op<Event>>, first: nat, checks: seq<string>)
    requires i.nodes.Some? && script == ScriptOf(i) && first == WaitIndex(i) + 1 && checks == i.nodeChecks
    ensures |script| == first + |checks| && FinishedBefore(script, first) == []
    ensures forall k: nat :: k < |checks| ==> Finishes(script, first, checks, k)
  {
    RoundLength(i);
    NothingFinishedBeforeWait(i, first);
    forall k: nat | k < |checks| ensures Finishes(script, first, checks, k) { FinishesAfterWait(i, k); }
  }

  lemma FinishedInAll(script: seq<Op<Event>>, first: nat, checks: seq<string>)
    requires |script| == first + |checks| && FinishedBefore(script, first) == []
    requires forall k: nat :: k < |checks| ==> Finishes(script, first, checks, k)
    ensures FinishedBefore(script, |script|) == checks
  {
    FinishedFrom(script, first, checks, |checks|);
    assert checks[..|checks|] == checks;
  }

  lemma FinishedByScript(i: Input, script: seq<Op<Event>>)
    requires i.nodes.Some? && script == ScriptOf(i)
    ensures FinishedBefore(script, |script|) == i.nodeChecks
  {
    var first := WaitIndex(i) + 1;
    FinishesComeAt(i, script, first, i.nodeChecks);
    FinishedInAll(script, first, i.nodeChecks);
  }

  /** A completed round has finished every node check once, in order. */
  lemma CompletedRoundFinishesAll(i: Input, c: Config<Event>, s: State<Event>)
    requires RoundCompleted(i, c, s)
    ensures FinishedIn(s.log) == i.nodeChecks
  {
    PassedWait(i, c, s);
    RoundTasksDoNotFinish(i, c);
    FinishedByMain(c, s);
    FinishedByScript(i, c.script);
  }

  /** A round that returned early, or whose context expired, finishes none, however long its tasks go on. */
  lemma FailedRoundFinishesNone(i: Input, c: Config<Event>, s: State<Event>)
    requires IsRound(i, c, s) && (i.nodes.None? || s.main.Expired?)
    ensures FinishedIn(s.log) == []
  {
    RoundWaitsLast(i);
    RoundTasksDoNotFinish(i, c);
    FinishedByMain(c, s);
    if i.nodes.Some? { AtWait(i, c, s); }
    NothingFinishedBeforeWait(i, s.pc);
  }

  // ---------------------------------------------------------------- its metrics

  /** The metrics of some checks, `reported` being what each FinishCheck adds. */
  function MetricsOf(checks: seq<string>, reported: string -> seq<M.Metric>): seq<M.Metric> {
    if checks == [] then []
    else MetricsOf(checks[..|checks| - 1], reported) + reported(checks[|checks| - 1])
  }

  /** Each check's metrics, all of them, between those of the checks before and behind it. */
  lemma {:induction false} MetricsOfEach(before: seq<string>, check: string, behind: seq<string>,
                                         reported: string -> seq<M.Metric>)
    ensures MetricsOf(before + [check] + behind, reported)
         == MetricsOf(before, reported) + reported(check) + MetricsOf(behind, reported)
  {
    var checks := before + [check] + behind;
    if behind == [] {
      assert checks[..|checks| - 1] == before;
    } else {
      var init := behind[..|behind| - 1];
      assert checks[..|checks| - 1] == before + [check] + init;
      MetricsOfEach(before, check, init, reported);
    }
  }

  function AddAll(metrics: seq<M.Metric>): (calls: seq<M.Call>)
    ensures |calls| == |metrics| && forall k :: 0 <= k < |calls| ==> calls[k] == M.Add(metrics[k])
  {
    seq(|metrics|, k requires 0 <= k < |metrics| => M.Add(metrics[k]))
  }

  lemma {:induction false} AddedAll(metrics: seq<M.Metric>)
    ensures M.Added(AddAll(metrics)) == metrics
  {
    if metrics != [] {
      var n := |metrics| - 1;
      AddedAll(metrics[..n]);
      assert AddAll(metrics)[..n] == AddAll(metrics[..n]);
      assert metrics == metrics[..n] + [metrics[n]];
    }
  }

  /** The collector's calls in a round: FinishedAllChecks is called on all three ways out. */
  function CollectorCalls(log: seq<Entry<Event>>, reported: string -> seq<M.Metric>): seq<M.Call> {
    AddAll(MetricsOf(FinishedIn(log), reported))
  }

  /** After a round, and until the next one publishes, the metrics are those of all its node checks if it completed,
      and none if it returned early or its context expired. */
  lemma RoundPublishes(i: Input, c: Config<Event>, s: State<Event>, reported: string -> seq<M.Metric>,
                       before: seq<M.Call>, later: seq<M.Call>)
    requires IsRound(i, c, s) && M.Finish !in later
    requires i.nodes.None? || s.main.Completed? || s.main.Expired?
    ensures M.After(before + [M.Start] + CollectorCalls(s.log, reported) + [M.Finish] + later).published
         == if i.nodes.Some? && s.main.Completed? then MetricsOf(i.nodeChecks, reported) else []
  {
    var metrics := MetricsOf(FinishedIn(s.log), reported);
    M.RoundPublishesItsOwn(before, AddAll(metrics), later);
    AddedAll(metrics);
    if i.nodes.Some? && s.main.Completed? {
      CompletedRoundFinishesAll(i, c, s);
    } else {
      FailedRoundFinishesNone(i, c, s);
    }
  }
}
