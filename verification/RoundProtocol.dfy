/** The contract of NodeCheck (pkg/check/interface.go): StartCheck, then CheckNode for each node,
    then FinishCheck; and what may still be running when a round returns. */
module RoundProtocol {
  import opened Options
  import opened ThreadPool
  import opened PoolTheorems
  import opened PoolSchedules
  import opened ResultCollection
  import opened Round
  import opened RoundTheorems

  ghost predicate IsRound(i: Input, c: Config<Event>, s: State<Event>) {
    c.script == ScriptOf(i) && Reachable(c, s)
  }

  // ---------------------------------------------------------------- which statement an event comes from

  lemma {:induction false} CheckEventKinds(i: Input, node: Node, n: nat, e: Event)
    requires n <= |i.nodeChecks| && e in CheckEvents(i, node, n)
    ensures e.CheckNode? || e.AddResult?
  {
    if n > 0 && e in CheckEvents(i, node, n - 1) { CheckEventKinds(i, node, n - 1, e); }
  }

  lemma {:induction false} LookupFailedKinds(i: Input, err: Option<string>, n: nat, e: Event)
    requires n <= |i.nodeChecks| && e in LookupFailed(i, err, n)
    ensures e.AddResult?
  {
    if n > 0 && e in LookupFailed(i, err, n - 1) { LookupFailedKinds(i, err, n - 1, e); }
  }

  lemma NodeEventKinds(i: Input, node: Node, e: Event)
    requires e in NodeBody(i, node)
    ensures e.VmLookup? || e.CheckNode? || e.AddResult?
  {
    var n := |i.nodeChecks|;
    if e != VmLookup(node) {
      if i.lookupError(node).Some? {
        LookupFailedKinds(i, i.lookupError(node), n, e);
      } else {
        CheckEventKinds(i, node, n, e);
      }
    }
  }

  lemma EntryComesFromOp(c: Config<Event>, s: State<Event>, a: nat)
    requires Inv(c, s) && a < |s.log|
    ensures s.log[a].origin < |c.script| && s.log[a].event in OpEvents(c.script[s.log[a].origin])
  {
    var x := s.log[a];
    CountInProjection(s.log, x);
    assert x in multiset(s.log);
    assert x.event in Project(s.log, x.origin);
    assert Project(s.log, x.origin) == Contribution(c, s, x.origin);
  }

  lemma ClusterEventKinds(i: Input, k: string, e: Event)
    requires e in ClusterBody(i, k)
    ensures e.ClusterCheck? || e.AddResult?
  {
    assert e == ClusterCheck(k) || e == AddResult(k, i.clusterError(k));
  }

  /** The events of a task are those of one cluster check or of one node. */
  lemma TaskKinds(i: Input, vs: seq<Node>, o: nat, e: Event)
    requires o < FirstNode(i) + |vs| && StatementAt(i, vs, o).Submit? && e in StatementAt(i, vs, o).body
    ensures !e.StartCheck? && !e.FinishCheck? && (e.CheckNode? ==> FirstNode(i) <= o)
  {
    if o < |i.clusterChecks| {
      ClusterEventKinds(i, i.clusterChecks[o], e);
    } else {
      NodeEventKinds(i, vs[o - FirstNode(i)], e);
    }
  }

  lemma StatementKinds(i: Input, vs: seq<Node>, o: nat, e: Event)
    requires o < FirstNode(i) + |vs| + 1 + |i.nodeChecks| && e in OpEvents(StatementAt(i, vs, o))
    ensures e.CheckNode? ==> FirstNode(i) <= o < FirstNode(i) + |vs|
    ensures e.StartCheck? ==> |i.clusterChecks| <= o < FirstNode(i)
    ensures e.FinishCheck? ==> FirstNode(i) + |vs| < o
  {
    if StatementAt(i, vs, o).Submit? { TaskKinds(i, vs, o, e); }
  }

  lemma EventOrigin(i: Input, c: Config<Event>, s: State<Event>, a: nat)
    requires i.nodes.Some? && c.script == ScriptOf(i) && Inv(c, s) && a < |s.log|
    ensures var x := s.log[a];
      && x.origin < |c.script|
      && (x.event.CheckNode? ==> FirstNode(i) <= x.origin < WaitIndex(i))
      && (x.event.StartCheck? ==> |i.clusterChecks| <= x.origin < FirstNode(i))
      && (x.event.FinishCheck? ==> WaitIndex(i) < x.origin)
  {
    EntryComesFromOp(c, s, a);
    var x := s.log[a];
    ScriptLayout(i, x.origin);
    StatementKinds(i, VSphereNodes(i.nodes.value), x.origin, x.event);
  }

  // ---------------------------------------------------------------- the protocol

  ghost predicate StartsFirst(log: seq<Entry<Event>>) {
    forall a, b :: 0 <= a < b < |log| && log[a].event.CheckNode? ==> !log[b].event.StartCheck?
  }

  ghost predicate FinishesLast(log: seq<Entry<Event>>) {
    forall a, b :: 0 <= a < b < |log| && log[a].event.FinishCheck? ==> log[b].event.FinishCheck?
  }

  lemma StartsComeFirst(i: Input, c: Config<Event>, s: State<Event>)
    requires i.nodes.Some? && IsRound(i, c, s)
    ensures StartsFirst(s.log)
  {
    RoundWaitsLast(i);
    ReachableInv(c, s);
    forall a, b | 0 <= a < b < |s.log| && s.log[a].event.CheckNode? ensures !s.log[b].event.StartCheck? {
      EventOrigin(i, c, s, a);
      EventOrigin(i, c, s, b);
      ScriptLayout(i, s.log[a].origin);
      ScriptLayout(i, s.log[b].origin);
    }
  }

  /** Before any CheckNode is called, StartCheck of every check has been called. */
  lemma EveryCheckStarted(i: Input, c: Config<Event>, s: State<Event>, a: nat, k: nat) returns (b: nat)
    requires i.nodes.Some? && IsRound(i, c, s)
    requires a < |s.log| && s.log[a].event.CheckNode? && k < |i.nodeChecks|
    ensures b < a && s.log[b].event == StartCheck(i.nodeChecks[k])
  {
    RoundWaitsLast(i);
    ReachableInv(c, s);
    EventOrigin(i, c, s, a);
    var m := |i.clusterChecks| + k;
    ScriptLayout(i, m);
    b := EmitIsLogged(c, s, m);
  }

  lemma EmitIsLogged(c: Config<Event>, s: State<Event>, m: nat) returns (b: nat)
    requires Inv(c, s) && m < s.pc && c.script[m].Emit?
    ensures b < |s.log| && s.log[b] == Entry(m, c.script[m].event)
  {
    var x := Entry(m, c.script[m].event);
    assert Project(s.log, m) == Contribution(c, s, m) == [x.event];
    CountInProjection(s.log, x);
    assert x in multiset(s.log);
    b :| 0 <= b < |s.log| && s.log[b] == x;
  }

  lemma FinishMeansPastWait(i: Input, c: Config<Event>, s: State<Event>, a: nat)
    requires i.nodes.Some? && c.script == ScriptOf(i) && Inv(c, s) && a < |s.log| && s.log[a].event.FinishCheck?
    ensures c.script[s.log[a].origin].Emit? && WaitBefore(c.script, s.log[a].origin) && WaitBefore(c.script, s.pc)
  {
    EventOrigin(i, c, s, a);
    ScriptLayout(i, s.log[a].origin);
    ScriptLayout(i, WaitIndex(i));
    assert c.script[WaitIndex(i)].Wait?;
  }

  /** FinishCheck is only called when no task is queued or running and every check of every found
      node has been called; nothing but further FinishChecks follows. */
  lemma FinishesComeLast(i: Input, c: Config<Event>, s: State<Event>)
    requires i.nodes.Some? && IsRound(i, c, s)
    ensures FinishesLast(s.log)
    ensures (exists a :: 0 <= a < |s.log| && s.log[a].event.FinishCheck?) ==>
      && s.queue == [] && (forall w :: w in s.workers ==> !w.Busy?)
      && forall t: nat :: t < |c.script| && c.script[t].Submit? ==> Project(s.log, t) == c.script[t].body
  {
    RoundWaitsLast(i);
    ReachableInv(c, s);
    forall a, b | 0 <= a < b < |s.log| && s.log[a].event.FinishCheck? ensures s.log[b].event.FinishCheck? {
      FinishMeansPastWait(i, c, s, a);
      EventOrigin(i, c, s, a);
      EventOrigin(i, c, s, b);
      EntryComesFromOp(c, s, b);
      ScriptLayout(i, s.log[b].origin);
    }
    if a :| 0 <= a < |s.log| && s.log[a].event.FinishCheck? {
      FinishMeansPastWait(i, c, s, a);
      ZeroMeansQuiet(c, s);
      WaitNilMeansAllRan(c, s);
    }
  }

  // ---------------------------------------------------------------- what outlives a round

  ghost predicate CheckNodeInProgress(c: Config<Event>, s: State<Event>) {
    exists w :: 0 <= w < |s.workers| && InCheckNode(c, s, s.workers[w])
  }

  /** The last event of the worker's task is the beginning of a CheckNode call. */
  ghost predicate InCheckNode(c: Config<Event>, s: State<Event>, w: Worker) {
    w.Busy? && 0 < s.Pos(w.task) <= |Body(c, w.task)| && Body(c, w.task)[s.Pos(w.task) - 1].CheckNode?
  }

  /** A round that returns after Wait leaves no task behind. */
  lemma CompletedRoundLeavesNothing(i: Input, c: Config<Event>, s: State<Event>)
    requires RoundCompleted(i, c, s)
    ensures s.queue == [] && forall w :: w in s.workers ==> !w.Busy?
    ensures !CheckNodeInProgress(c, s)
  {
    PassedWait(i, c, s);
    ZeroMeansQuiet(c, s);
    assert forall w :: 0 <= w < |s.workers| ==> s.workers[w] in s.workers;
  }

  /** When listing the nodes fails, Wait is never called: the channel stays open, no worker ever
      exits, and once the cluster checks are done every worker is parked on the channel for good. */
  lemma EarlyReturnParksWorkers(i: Input, c: Config<Event>, s: State<Event>)
    requires i.nodes.None? && IsRound(i, c, s) && c.parallelism > 0
    ensures !s.WorkClosed() && forall w :: w in s.workers ==> !w.Exited?
    ensures Stuck(c, s) ==> s.main.Completed? && forall w :: w in s.workers ==> w.Idle?
  {
    RoundWaitsLast(i);
    ReachableInv(c, s);
    if Stuck(c, s) { UnwaitedRunIsPermutation(c, s); }
  }

  /** In a round that has come to rest all workers have exited exactly when the nodes could be listed. */
  lemma WorkersExitExactlyWhenNodesListed(i: Input, c: Config<Event>, s: State<Event>)
    requires IsRound(i, c, s) && c.parallelism > 0 && Stuck(c, s)
    ensures (forall w :: w in s.workers ==> w.Exited?) <==> i.nodes.Some?
    ensures s.WorkClosed() <==> i.nodes.Some?
  {
    RoundWaitsLast(i);
    WorkersExitExactlyWhenWaited(c, s);
    if i.nodes.Some? {
      ScriptLayout(i, WaitIndex(i));
      assert c.script[WaitIndex(i)].Wait?;
    }
  }

  // ---------------------------------------------------------------- a round that returns in the middle of CheckNode

  /** Some run of the round returns while a CheckNode call is in progress. */
  ghost predicate CanLeaveCheckNode(c: Config<Event>) {
    exists s :: Reachable(c, s) && !s.main.Active? && CheckNodeInProgress(c, s)
  }

  /** A found node is checked, and while it is, the round can go on to Wait: there is another worker, or the
      tasks of the nodes behind it fit into the channel. */
  ghost predicate CheckCanOutlastRound(i: Input, c: Config<Event>) {
    && i.nodes.Some? && i.nodeChecks != []
    && exists m :: 0 <= m < |VSphereNodes(i.nodes.value)| && OutlastsAt(i, c, VSphereNodes(i.nodes.value), m)
  }

  ghost predicate OutlastsAt(i: Input, c: Config<Event>, vs: seq<Node>, m: nat)
    requires m < |vs|
  {
    i.lookupError(vs[m]).None? && (c.parallelism >= 2 || |vs| - 1 - m <= c.buffer)
  }

  lemma {:induction false} CheckedEvents(i: Input, node: Node, n: nat)
    requires n <= |i.nodeChecks|
    ensures |CheckEvents(i, node, n)| == 2 * n
    ensures n > 0 ==> CheckEvents(i, node, n)[0] == CheckNode(i.nodeChecks[0], node)
  {
    if n > 0 { CheckedEvents(i, node, n - 1); }
  }

  lemma NodeIsChecked(i: Input, node: Node, e: Event)
    requires e in NodeBody(i, node) && e.CheckNode?
    ensures i.lookupError(node).None? && i.nodeChecks != []
  {
    if i.lookupError(node).Some? { LookupFailedKinds(i, i.lookupError(node), |i.nodeChecks|, e); }
  }

  /** A busy worker that is in a CheckNode call runs the task of a found node. */
  lemma CheckedNode(i: Input, c: Config<Event>, s: State<Event>, w: nat) returns (m: nat)
    requires IsRound(i, c, s) && w < |s.workers| && InCheckNode(c, s, s.workers[w])
    ensures i.nodes.Some? && i.nodeChecks != [] && m < |VSphereNodes(i.nodes.value)|
    ensures i.lookupError(VSphereNodes(i.nodes.value)[m]).None?
    ensures s.workers[w].task == FirstNode(i) + m && |s.workers| == c.parallelism
  {
    RoundWaitsLast(i);
    ReachableInv(c, s);
    BusyIsRunning(c, s, w);
    var t := s.workers[w].task;
    var e := Body(c, t)[s.Pos(t) - 1];
    assert e in OpEvents(c.script[t]);
    m := CheckedTask(i, t, e);
  }

  lemma CheckedTask(i: Input, t: nat, e: Event) returns (m: nat)
    requires t < |ScriptOf(i)| && e in OpEvents(ScriptOf(i)[t]) && e.CheckNode?
    ensures i.nodes.Some? && i.nodeChecks != [] && m < |VSphereNodes(i.nodes.value)|
    ensures i.lookupError(VSphereNodes(i.nodes.value)[m]).None? && t == FirstNode(i) + m
  {
    assert i.nodes.Some?;
    var vs := VSphereNodes(i.nodes.value);
    ScriptLayout(i, t);
    StatementKinds(i, vs, t, e);
    m := t - FirstNode(i);
    NodeIsChecked(i, vs[m], e);
  }

  /** What a round that has left a CheckNode call behind looks like. */
  lemma LeftCheckNode(i: Input, c: Config<Event>, s: State<Event>, w: nat)
    requires IsRound(i, c, s) && c.parallelism > 0 && !s.main.Active?
    requires w < |s.workers| && InCheckNode(c, s, s.workers[w])
    ensures s.main.Expired? && CheckCanOutlastRound(i, c)
  {
    var m := CheckedNode(i, c, s, w);
    assert CheckNodeInProgress(c, s);
    assert s.main.Expired? by { if s.main.Completed? { CompletedRoundLeavesNothing(i, c, s); } }
    if c.parallelism == 1 {
      assert w == 0;
      LaterNodesFit(i, c, s, m);
    }
    assert OutlastsAt(i, c, VSphereNodes(i.nodes.value), m);
  }

  lemma LaterNodesFit(i: Input, c: Config<Event>, s: State<Event>, m: nat)
    requires i.nodes.Some? && IsRound(i, c, s) && s.main.Expired? && c.parallelism == 1
    requires m < |VSphereNodes(i.nodes.value)| && |s.workers| > 0 && s.workers[0] == Busy(FirstNode(i) + m)
    ensures |VSphereNodes(i.nodes.value)| - 1 - m <= c.buffer
  {
    AtWait(i, c, s);
    RoundWaitsLast(i);
    NodesAreSubmitted(i);
    LaterTasksFit(c, s, FirstNode(i) + m);
  }

  /** A round whose context expired has stopped at Wait. */
  lemma AtWait(i: Input, c: Config<Event>, s: State<Event>)
    requires i.nodes.Some? && IsRound(i, c, s) && s.main.Expired?
    ensures s.pc == WaitIndex(i) && |s.workers| == c.parallelism
  {
    RoundWaitsLast(i);
    ReachableInv(c, s);
    ScriptLayout(i, s.pc);
  }

  lemma NodesAreSubmitted(i: Input)
    requires i.nodes.Some?
    ensures WaitIndex(i) < |ScriptOf(i)| && ScriptOf(i)[WaitIndex(i)].Wait?
    ensures forall o :: FirstNode(i) <= o < WaitIndex(i) ==> ScriptOf(i)[o].Submit?
    ensures forall o :: 0 <= o < WaitIndex(i) ==> !ScriptOf(i)[o].Wait?
    ensures forall o :: WaitIndex(i) < o < |ScriptOf(i)| ==> ScriptOf(i)[o].Emit?
  {
    var script := ScriptOf(i);
    ScriptLayout(i, WaitIndex(i));
    forall o | 0 <= o < |script|
      ensures FirstNode(i) <= o < WaitIndex(i) ==> script[o].Submit?
      ensures o < WaitIndex(i) ==> !script[o].Wait?
      ensures WaitIndex(i) < o ==> script[o].Emit?
    {
      ScriptLayout(i, o);
    }
  }

  /** The task of a found node is in a CheckNode call after its second event. */
  lemma SecondEventIsCheckNode(i: Input, m: nat)
    requires i.nodes.Some? && i.nodeChecks != [] && m < |VSphereNodes(i.nodes.value)|
    requires i.lookupError(VSphereNodes(i.nodes.value)[m]).None?
    ensures FirstNode(i) + m < |ScriptOf(i)| && ScriptOf(i)[FirstNode(i) + m].Submit?
    ensures |ScriptOf(i)[FirstNode(i) + m].body| >= 2 && ScriptOf(i)[FirstNode(i) + m].body[1].CheckNode?
  {
    NodesAreSubmitted(i);
    ScriptLayout(i, FirstNode(i) + m);
    CheckedEvents(i, VSphereNodes(i.nodes.value)[m], |i.nodeChecks|);
  }

  /** Task `t` has a CheckNode call, and the main goroutine can reach Wait while it is in that call. */
  ghost predicate CanBeLeft(c: Config<Event>, t: nat, wait: nat) {
    && t < wait < |c.script| && c.script[wait].Wait? && (forall o :: 0 <= o < wait ==> !c.script[o].Wait?)
    && c.script[t].Submit? && |c.script[t].body| >= 2 && c.script[t].body[1].CheckNode?
    && (c.parallelism >= 2 || (wait - 1 - t <= c.buffer && forall o :: t < o < wait ==> c.script[o].Submit?))
  }

  lemma FoundNodeCanBeLeft(i: Input, c: Config<Event>, m: nat)
    requires i.nodes.Some? && c.script == ScriptOf(i) && i.nodeChecks != []
    requires m < |VSphereNodes(i.nodes.value)| && OutlastsAt(i, c, VSphereNodes(i.nodes.value), m)
    ensures CanBeLeft(c, FirstNode(i) + m, WaitIndex(i))
  {
    NodesAreSubmitted(i);
    SecondEventIsCheckNode(i, m);
  }

  lemma ReturnInCheckNode(c: Config<Event>, t: nat, wait: nat) returns (s: State<Event>)
    requires WaitIsLast(c.script) && c.parallelism > 0 && CanBeLeft(c, t, wait)
    ensures Reachable(c, s) && s.main.Expired? && CheckNodeInProgress(c, s)
  {
    s := ExpireWhileRunning(c, t, 2, wait);
    assert InCheckNode(c, s, s.workers[0]);
  }

  /** The contract also says that only one round runs at a time. A round can return in the middle of a
      CheckNode call exactly when a found node is checked and either there are two workers or the tasks of the
      nodes behind it fit into the channel; and it does so only when its context has expired. */
  lemma RoundLeavesCheckNodeExactlyWhen(i: Input, c: Config<Event>)
    requires c.script == ScriptOf(i) && c.parallelism > 0
    ensures CanLeaveCheckNode(c) <==> CheckCanOutlastRound(i, c)
    ensures forall s :: Reachable(c, s) && !s.main.Active? && CheckNodeInProgress(c, s) ==> s.main.Expired?
  {
    forall s | Reachable(c, s) && !s.main.Active? && CheckNodeInProgress(c, s)
      ensures s.main.Expired? && CheckCanOutlastRound(i, c)
    {
      var w :| 0 <= w < |s.workers| && InCheckNode(c, s, s.workers[w]);
      LeftCheckNode(i, c, s, w);
    }
    if CheckCanOutlastRound(i, c) {
      var m :| 0 <= m < |VSphereNodes(i.nodes.value)| && OutlastsAt(i, c, VSphereNodes(i.nodes.value), m);
      RoundWaitsLast(i);
      FoundNodeCanBeLeft(i, c, m);
      var s := ReturnInCheckNode(c, FirstNode(i) + m, WaitIndex(i));
    }
  }
}
