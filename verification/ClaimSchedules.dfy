/** Exactly when the results of a claiming check depend on the schedule of the thread pool. */
module ClaimSchedules {
  import opened Options
  import opened ThreadPool
  import opened PoolTheorems
  import opened PoolSchedules
  import opened ResultCollection
  import opened Round
  import opened RoundTheorems
  import opened RoundProtocol
  import opened RoundCounts
  import opened ClaimingChecks

  // ---------------------------------------------------------------- nodes with a key, in the order of the list

  /** The node is found and has key `h`. */
  predicate IsKeyed(i: Input, q: Claiming, h: string, n: Node) {
    i.lookupError(n).None? && q.key(n) == Some(h)
  }

  function Keyed(i: Input, q: Claiming, h: string, vs: seq<Node>): (r: seq<Node>)
    ensures |r| <= |vs|
  {
    if vs == [] then []
    else
      var init, last := Keyed(i, q, h, vs[..|vs| - 1]), vs[|vs| - 1];
      if IsKeyed(i, q, h, last) then init + [last] else init
  }

  lemma {:induction false} KeyedPrefix(i: Input, q: Claiming, h: string, vs: seq<Node>, m: nat)
    requires m <= |vs|
    ensures Keyed(i, q, h, vs[..m]) <= Keyed(i, q, h, vs)
  {
    if m < |vs| {
      assert vs[..|vs| - 1][..m] == vs[..m];
      KeyedPrefix(i, q, h, vs[..|vs| - 1], m);
    } else {
      assert vs[..m] == vs;
    }
  }

  /** How many nodes before node `m` are found and have the key. */
  function Rank(i: Input, q: Claiming, h: string, vs: seq<Node>, m: nat): nat
    requires m <= |vs|
  {
    |Keyed(i, q, h, vs[..m])|
  }

  lemma RankStep(i: Input, q: Claiming, h: string, vs: seq<Node>, m: nat)
    requires m < |vs|
    ensures Rank(i, q, h, vs, m + 1) == Rank(i, q, h, vs, m) + if IsKeyed(i, q, h, vs[m]) then 1 else 0
  {
    assert vs[..m + 1][..m] == vs[..m];
  }

  /** A node with the key is found at its rank. */
  lemma RankIsIndex(i: Input, q: Claiming, h: string, vs: seq<Node>, m: nat)
    requires m < |vs| && IsKeyed(i, q, h, vs[m])
    ensures Rank(i, q, h, vs, m) < |Keyed(i, q, h, vs)|
    ensures Keyed(i, q, h, vs)[Rank(i, q, h, vs, m)] == vs[m]
  {
    assert vs[..m + 1][..m] == vs[..m];
    KeyedPrefix(i, q, h, vs, m + 1);
  }

  /** The tasks of the nodes before node `m` that are found and have the key. */
  ghost function KeyedTasks(i: Input, q: Claiming, h: string, vs: seq<Node>, m: nat): set<nat>
    requires m <= |vs|
  {
    set k: nat | k < m && IsKeyed(i, q, h, vs[k]) :: FirstNode(i) + k
  }

  lemma {:induction false} KeyedTasksCount(i: Input, q: Claiming, h: string, vs: seq<Node>, m: nat)
    requires m <= |vs|
    ensures |KeyedTasks(i, q, h, vs, m)| == Rank(i, q, h, vs, m)
  {
    if m == 0 {
      assert vs[..0] == [] && KeyedTasks(i, q, h, vs, 0) == {};
    } else {
      KeyedTasksCount(i, q, h, vs, m - 1);
      RankStep(i, q, h, vs, m - 1);
      var before := KeyedTasks(i, q, h, vs, m - 1);
      if IsKeyed(i, q, h, vs[m - 1]) {
        assert KeyedTasks(i, q, h, vs, m) == before + {FirstNode(i) + m - 1};
      } else {
        assert KeyedTasks(i, q, h, vs, m) == before;
      }
    }
  }

  // ---------------------------------------------------------------- who can be the first

  predicate IsCall(e: Event, check: string, q: Claiming, h: string) {
    e.CheckNode? && e.check == check && q.key(e.node) == Some(h)
  }

  ghost predicate Uncalled(log: seq<Entry<Event>>, a: nat, check: string, q: Claiming, h: string)
    requires a <= |log|
  {
    forall b :: 0 <= b < a ==> !IsCall(log[b].event, check, q, h)
  }

  /** The first call with a key comes from a node of a rank below the number of workers. */
  ghost predicate EarlyClaims(i: Input, c: Config<Event>, log: seq<Entry<Event>>, check: string, q: Claiming, h: string)
    requires i.nodes.Some?
  {
    forall a :: 0 <= a < |log| && IsCall(log[a].event, check, q, h) && Uncalled(log, a, check, q, h) ==>
      ClaimIsEarly(i, c, log[a], q, h)
  }

  ghost predicate ClaimIsEarly(i: Input, c: Config<Event>, x: Entry<Event>, q: Claiming, h: string)
    requires i.nodes.Some?
  {
    var vs := VSphereNodes(i.nodes.value);
    && FirstNode(i) <= x.origin < FirstNode(i) + |vs| && x.event.CheckNode?
    && vs[x.origin - FirstNode(i)] == x.event.node && IsKeyed(i, q, h, x.event.node)
    && Rank(i, q, h, vs, x.origin - FirstNode(i)) < c.parallelism
  }

  lemma SetInBag(ts: set<nat>, bag: multiset<nat>)
    requires forall t :: t in ts ==> t in bag
    ensures |ts| <= |bag|
  {
    assert multiset(ts) <= bag;
    assert |multiset(ts)| == |ts|;
    assert bag == multiset(ts) + (bag - multiset(ts));
  }

  lemma {:induction false} ChecksCalled(i: Input, node: Node, n: nat, check: string)
    requires n <= |i.nodeChecks| && check in i.nodeChecks[..n]
    ensures CheckNode(check, node) in CheckEvents(i, node, n)
  {
    if check in i.nodeChecks[..n - 1] { ChecksCalled(i, node, n - 1, check); }
  }

  lemma {:induction false} CheckEventNode(i: Input, node: Node, n: nat, e: Event)
    requires n <= |i.nodeChecks| && e in CheckEvents(i, node, n) && e.CheckNode?
    ensures e.node == node
  {
    if e in CheckEvents(i, node, n - 1) { CheckEventNode(i, node, n - 1, e); }
  }

  lemma BodyEventNode(i: Input, node: Node, e: Event)
    requires e in NodeBody(i, node) && e.CheckNode?
    ensures e.node == node && i.lookupError(node).None?
  {
    NodeIsChecked(i, node, e);
    CheckEventNode(i, node, |i.nodeChecks|, e);
  }

  /** The statements that submit the tasks of the nodes. */
  ghost predicate SubmitsNodes(i: Input, c: Config<Event>, vs: seq<Node>) {
    forall m: nat :: m < |vs| ==> SubmitsNode(i, c, vs[m], FirstNode(i) + m)
  }

  ghost predicate SubmitsNode(i: Input, c: Config<Event>, node: Node, t: nat) {
    t < |c.script| && c.script[t] == Submit(NodeBody(i, node))
  }

  lemma RoundSubmitsNodes(i: Input, c: Config<Event>)
    requires i.nodes.Some? && c.script == ScriptOf(i)
    ensures SubmitsNodes(i, c, VSphereNodes(i.nodes.value))
  {
    var vs := VSphereNodes(i.nodes.value);
    forall m: nat | m < |vs| ensures SubmitsNode(i, c, vs[m], FirstNode(i) + m) {
      NodeStatement(i, m);
    }
  }

  lemma FinishedIsLogged(c: Config<Event>, s: State<Event>, t: nat, e: Event) returns (b: nat)
    requires Inv(c, s) && t in s.finished && t < |c.script| && e in Body(c, t)
    ensures b < |s.log| && s.log[b].event == e
  {
    assert Project(s.log, t) == Contribution(c, s, t) == Body(c, t)[..|Body(c, t)|] == Body(c, t);
    CountInProjection(s.log, Entry(t, e));
    assert Entry(t, e) in multiset(s.log);
    b :| b < |s.log| && s.log[b] == Entry(t, e);
  }

  lemma BodyCallsCheck(i: Input, node: Node, check: string)
    requires i.lookupError(node).None? && check in i.nodeChecks
    ensures CheckNode(check, node) in NodeBody(i, node)
  {
    assert i.nodeChecks[..|i.nodeChecks|] == i.nodeChecks;
    ChecksCalled(i, node, |i.nodeChecks|, check);
  }

  /** A task that has finished has called the check. */
  lemma FinishedHasCalled(i: Input, c: Config<Event>, node: Node, t: nat, s: State<Event>, check: string, q: Claiming,
                          h: string)
    requires SubmitsNode(i, c, node, t) && Inv(c, s) && check in i.nodeChecks
    requires IsKeyed(i, q, h, node) && t in s.finished
    ensures !Uncalled(s.log, |s.log|, check, q, h)
  {
    BodyCallsCheck(i, node, check);
    var b := FinishedIsLogged(c, s, t, CheckNode(check, node));
    CalledOnce(s.log, b, check, q, h);
  }

  lemma CalledOnce(log: seq<Entry<Event>>, b: nat, check: string, q: Claiming, h: string)
    requires b < |log| && IsCall(log[b].event, check, q, h)
    ensures !Uncalled(log, |log|, check, q, h)
  {
  }

  /** While nobody has called with the key, the tasks of the earlier nodes with it are all at workers. */
  lemma EarlierKeyedIsRunning(i: Input, c: Config<Event>, vs: seq<Node>, s: State<Event>, check: string, q: Claiming,
                              h: string, m: nat, k: nat)
    requires SubmitsNodes(i, c, vs) && Inv(c, s) && Fifo(s) && check in i.nodeChecks
    requires k < m < |vs| && FirstNode(i) + m in s.started && IsKeyed(i, q, h, vs[k])
    requires Uncalled(s.log, |s.log|, check, q, h)
    ensures FirstNode(i) + k in Running(s.workers)
  {
    var t, u := FirstNode(i) + m, FirstNode(i) + k;
    StartedIsSubmitted(c, s, t);
    assert SubmitsNode(i, c, vs[k], u);
    EarlierIsReceived(c, s, t, u);
    if u in s.finished { FinishedHasCalled(i, c, vs[k], u, s, check, q, h); }
    assert u in multiset(s.started);
  }

  lemma StartedIsSubmitted(c: Config<Event>, s: State<Event>, t: nat)
    requires Inv(c, s) && t in s.started
    ensures t < s.pc
  {
    OnePlace(c, s, t);
    assert t in multiset(s.started);
  }

  /** So the node that calls first has a rank below the number of workers. */
  lemma CallerRank(i: Input, c: Config<Event>, vs: seq<Node>, s: State<Event>, check: string, q: Claiming, h: string,
                   m: nat, w: nat)
    requires SubmitsNodes(i, c, vs) && Inv(c, s) && Fifo(s) && check in i.nodeChecks && m < |vs|
    requires w < |s.workers| && s.workers[w] == Busy(FirstNode(i) + m)
    requires Uncalled(s.log, |s.log|, check, q, h)
    ensures Rank(i, q, h, vs, m) < c.parallelism
  {
    var t := FirstNode(i) + m;
    BusyIsRunning(c, s, w);
    BusyTaskRuns(s.workers, w);
    forall u | u in KeyedTasks(i, q, h, vs, m) ensures u in Running(s.workers) && u < t {
      KeyedTaskIsRunning(i, c, vs, s, check, q, h, m, u);
    }
    RankBelowWorkers(i, q, h, vs, m, t, s.workers);
  }

  lemma BusyTaskRuns(ws: seq<Worker>, w: nat)
    requires w < |ws| && ws[w].Busy?
    ensures ws[w].task in Running(ws)
  {
    RunningUpdate(ws, w, Idle);
  }

  lemma RankBelowWorkers(i: Input, q: Claiming, h: string, vs: seq<Node>, m: nat, t: nat, ws: seq<Worker>)
    requires m <= |vs| && t in Running(ws)
    requires forall u :: u in KeyedTasks(i, q, h, vs, m) ==> u in Running(ws) && u < t
    ensures Rank(i, q, h, vs, m) < |ws|
  {
    NobodyRunning(ws);
    KeyedTasksCount(i, q, h, vs, m);
    OneMoreInBag(KeyedTasks(i, q, h, vs, m), t, Running(ws));
  }

  lemma KeyedTaskIsRunning(i: Input, c: Config<Event>, vs: seq<Node>, s: State<Event>, check: string, q: Claiming,
                           h: string, m: nat, u: nat)
    requires SubmitsNodes(i, c, vs) && Inv(c, s) && Fifo(s) && check in i.nodeChecks
    requires m < |vs| && FirstNode(i) + m in s.started && u in KeyedTasks(i, q, h, vs, m)
    requires Uncalled(s.log, |s.log|, check, q, h)
    ensures u in Running(s.workers) && u < FirstNode(i) + m
  {
    var k := TaskIndex(i, q, h, vs, m, u);
    EarlierKeyedIsRunning(i, c, vs, s, check, q, h, m, k);
  }

  lemma TaskIndex(i: Input, q: Claiming, h: string, vs: seq<Node>, m: nat, u: nat) returns (k: nat)
    requires m <= |vs| && u in KeyedTasks(i, q, h, vs, m)
    ensures k < m && IsKeyed(i, q, h, vs[k]) && u == FirstNode(i) + k
  {
    k :| k < m && IsKeyed(i, q, h, vs[k]) && u == FirstNode(i) + k;
  }

  lemma OneMoreInBag(ts: set<nat>, t: nat, bag: multiset<nat>)
    requires (forall u :: u in ts ==> u in bag && u < t) && t in bag
    ensures |ts| < |bag|
  {
    SetInBag(ts + {t}, bag);
  }

  // ---------------------------------------------------------------- first claims along a run

  lemma EarlyClaimsAppend(i: Input, c: Config<Event>, log: seq<Entry<Event>>, x: Entry<Event>, check: string,
                          q: Claiming, h: string)
    requires i.nodes.Some? && EarlyClaims(i, c, log, check, q, h)
    requires IsCall(x.event, check, q, h) && Uncalled(log, |log|, check, q, h) ==> ClaimIsEarly(i, c, x, q, h)
    ensures EarlyClaims(i, c, log + [x], check, q, h)
  {
    var log' := log + [x];
    forall a | 0 <= a < |log'| && IsCall(log'[a].event, check, q, h) && Uncalled(log', a, check, q, h)
      ensures ClaimIsEarly(i, c, log'[a], q, h)
    {
      assert forall b :: 0 <= b < |log| ==> log'[b] == log[b];
      if a < |log| { assert Uncalled(log, a, check, q, h); } else { assert Uncalled(log, |log|, check, q, h); }
    }
  }

  /** A worker is about to call. */
  lemma CallIsEarly(i: Input, c: Config<Event>, s: State<Event>, check: string, q: Claiming, h: string, w: nat)
    requires IsRound(i, c, s) && i.nodes.Some? && check in i.nodeChecks && Enabled(c, s, Work(w))
    requires IsCall(NextEvent(c, s, w), check, q, h) && Uncalled(s.log, |s.log|, check, q, h)
    ensures ClaimIsEarly(i, c, Entry(s.workers[w].task, NextEvent(c, s, w)), q, h)
  {
    RoundWaitsLast(i);
    ReachableInv(c, s);
    ReachableFifo(c, s);
    RoundSubmitsNodes(i, c);
    var m := CallingNode(i, c, s, w);
    CallerRank(i, c, VSphereNodes(i.nodes.value), s, check, q, h, m, w);
  }

  lemma CallingNode(i: Input, c: Config<Event>, s: State<Event>, w: nat) returns (m: nat)
    requires i.nodes.Some? && c.script == ScriptOf(i) && Inv(c, s) && Enabled(c, s, Work(w))
    requires NextEvent(c, s, w).CheckNode?
    ensures m < |VSphereNodes(i.nodes.value)| && s.workers[w].task == FirstNode(i) + m
    ensures NextEvent(c, s, w).node == VSphereNodes(i.nodes.value)[m]
    ensures i.lookupError(VSphereNodes(i.nodes.value)[m]).None?
  {
    BusyIsRunning(c, s, w);
    var t, e := s.workers[w].task, NextEvent(c, s, w);
    EventOfTask(c, t, e);
    m := CheckedTask(i, t, e);
    RoundSubmitsNodes(i, c);
    assert SubmitsNode(i, c, VSphereNodes(i.nodes.value)[m], t);
    BodyEventNode(i, VSphereNodes(i.nodes.value)[m], e);
  }

  lemma EventOfTask(c: Config<Event>, t: nat, e: Event)
    requires e in Body(c, t)
    ensures t < |c.script| && c.script[t].Submit? && e in OpEvents(c.script[t])
  {
  }

  ghost function NextEvent(c: Config<Event>, s: State<Event>, w: nat): Event
    requires Enabled(c, s, Work(w))
  {
    Body(c, s.workers[w].task)[s.Pos(s.workers[w].task)]
  }

  lemma EarlyClaimsStep(i: Input, c: Config<Event>, s: State<Event>, a: Action, check: string, q: Claiming, h: string)
    requires IsRound(i, c, s) && i.nodes.Some? && check in i.nodeChecks && Enabled(c, s, a)
    requires EarlyClaims(i, c, s.log, check, q, h)
    ensures EarlyClaims(i, c, Next(c, s, a).log, check, q, h)
  {
    if a.Work? {
      var x := Entry(s.workers[a.w].task, NextEvent(c, s, a.w));
      if IsCall(x.event, check, q, h) && Uncalled(s.log, |s.log|, check, q, h) {
        CallIsEarly(i, c, s, check, q, h, a.w);
      }
      EarlyClaimsAppend(i, c, s.log, x, check, q, h);
    } else if a.EmitNext? {
      EmitIsNoCall(i, s.pc);
      EarlyClaimsAppend(i, c, s.log, Entry(s.pc, c.script[s.pc].event), check, q, h);
    }
  }

  lemma EmitIsNoCall(i: Input, o: nat)
    requires i.nodes.Some? && o < |ScriptOf(i)| && ScriptOf(i)[o].Emit?
    ensures !ScriptOf(i)[o].event.CheckNode?
  {
    ScriptLayout(i, o);
  }

  lemma {:induction false} EarlyClaimsAlong(i: Input, c: Config<Event>, s: State<Event>, trace: seq<Action>,
                                            s': State<Event>,
                                            check: string, q: Claiming, h: string)
    requires IsRound(i, c, s) && i.nodes.Some? && check in i.nodeChecks && Run(c, s, trace, s')
    requires EarlyClaims(i, c, s.log, check, q, h)
    ensures EarlyClaims(i, c, s'.log, check, q, h)
    decreases |trace|
  {
    if trace != [] {
      EarlyClaimsStep(i, c, s, trace[0], check, q, h);
      var next := Reach(c, s, trace[0]);
      EarlyClaimsAlong(i, c, next, trace[1..], s', check, q, h);
    }
  }

  lemma ReachableClaimsAreEarly(i: Input, c: Config<Event>, s: State<Event>, check: string, q: Claiming, h: string)
    requires IsRound(i, c, s) && i.nodes.Some? && check in i.nodeChecks
    ensures EarlyClaims(i, c, s.log, check, q, h)
  {
    var trace :| Run(c, Init(c), trace, s);
    assert Run(c, Init(c), [], Init(c));
    EarlyClaimsAlong(i, c, Init(c), trace, s, check, q, h);
  }

  lemma ClaimantSnoc(q: Claiming, calls: seq<Node>, n: Node, h: string)
    ensures Claimant(q, calls + [n], h)
         == if Claimant(q, calls, h).Some? then Claimant(q, calls, h) else if q.key(n) == Some(h) then Some(n) else None
  {
    assert (calls + [n])[..|calls|] == calls;
  }

  /** The claimant of the calls in a log, entry by entry. */
  lemma ClaimantOfLog(log: seq<Entry<Event>>, check: string, q: Claiming, h: string)
    requires log != []
    ensures var init, e := log[..|log| - 1], log[|log| - 1].event;
      Claimant(q, Visits(log, check), h)
      == if Claimant(q, Visits(init, check), h).Some? then Claimant(q, Visits(init, check), h)
         else if IsCall(e, check, q, h) then Some(e.node) else None
  {
    var init, e := log[..|log| - 1], log[|log| - 1].event;
    var calls := Visits(init, check);
    if e.CheckNode? && e.check == check {
      assert Visits(log, check) == calls + [e.node];
      ClaimantSnoc(q, calls, e.node, h);
    } else {
      assert Visits(log, check) == calls;
    }
  }

  /** The claimant of the calls in a log is the node of the first call with the key. */
  lemma {:induction false} ClaimantIsCalled(log: seq<Entry<Event>>, check: string, q: Claiming, h: string)
      returns (a: nat)
    requires Claimant(q, Visits(log, check), h).Some?
    ensures a < |log| && IsCall(log[a].event, check, q, h) && Uncalled(log, a, check, q, h)
    ensures log[a].event.node == Claimant(q, Visits(log, check), h).value
  {
    assert log != [];
    var init := log[..|log| - 1];
    ClaimantOfLog(log, check, q, h);
    if Claimant(q, Visits(init, check), h).Some? {
      a := ClaimantIsCalled(init, check, q, h);
      UncalledPrefix(log, |log| - 1, a, check, q, h);
    } else {
      a := |log| - 1;
      NoClaimantNoCall(init, check, q, h);
      UncalledPrefix(log, a, a, check, q, h);
    }
  }

  lemma UncalledPrefix(log: seq<Entry<Event>>, n: nat, a: nat, check: string, q: Claiming, h: string)
    requires a <= n <= |log| && Uncalled(log[..n], a, check, q, h)
    ensures Uncalled(log, a, check, q, h)
  {
    forall b | 0 <= b < a ensures !IsCall(log[b].event, check, q, h) { assert log[..n][b] == log[b]; }
  }

  lemma {:induction false} NoClaimantNoCall(log: seq<Entry<Event>>, check: string, q: Claiming, h: string)
    requires Claimant(q, Visits(log, check), h).None?
    ensures Uncalled(log, |log|, check, q, h)
  {
    if log != [] {
      var n := |log| - 1;
      ClaimantOfLog(log, check, q, h);
      NoClaimantNoCall(log[..n], check, q, h);
      UncalledPrefix(log, n, n, check, q, h);
    }
  }

  // ---------------------------------------------------------------- when the schedule does not matter

  /** The first `p` found nodes with a key would all end with the same verdict, whoever comes first. */
  ghost predicate FirstAgree(i: Input, q: Claiming, p: nat)
    requires i.nodes.Some?
  {
    forall h, a: nat :: a < p && a < |Keyed(i, q, h, VSphereNodes(i.nodes.value))| ==> AgreesWithFirst(i, q, h, a)
  }

  ghost predicate AgreesWithFirst(i: Input, q: Claiming, h: string, a: nat)
    requires i.nodes.Some? && a < |Keyed(i, q, h, VSphereNodes(i.nodes.value))|
  {
    var keyed := Keyed(i, q, h, VSphereNodes(i.nodes.value));
    q.first(keyed[a]) == q.first(keyed[0])
  }

  /** The two rounds differ in the verdicts of the check only. */
  ghost predicate SameButVerdicts(i: Input, j: Input, check: string) {
    && i.nodes.Some? && j.nodes == i.nodes && j.clusterChecks == i.clusterChecks && j.nodeChecks == i.nodeChecks
    && (forall n :: j.lookupError(n) == i.lookupError(n)) && (forall n :: j.clusterError(n) == i.clusterError(n))
    && (forall k, n :: k != check ==> j.nodeError(k, n) == i.nodeError(k, n))
  }

  /** In every run the claimant is one of the first `parallelism` found nodes with the key. */
  lemma ClaimantIsEarly(i: Input, c: Config<Event>, s: State<Event>, check: string, q: Claiming, h: string)
      returns (a: nat)
    requires IsRound(i, c, s) && i.nodes.Some? && check in i.nodeChecks && Claimant(q, Visits(s.log, check), h).Some?
    ensures a < c.parallelism && a < |Keyed(i, q, h, VSphereNodes(i.nodes.value))|
    ensures Claimant(q, Visits(s.log, check), h).value == Keyed(i, q, h, VSphereNodes(i.nodes.value))[a]
  {
    ReachableClaimsAreEarly(i, c, s, check, q, h);
    var b := ClaimantIsCalled(s.log, check, q, h);
    assert ClaimIsEarly(i, c, s.log[b], q, h);
    var vs, m := VSphereNodes(i.nodes.value), s.log[b].origin - FirstNode(i);
    RankIsIndex(i, q, h, vs, m);
    a := Rank(i, q, h, vs, m);
  }

  lemma {:induction false} SameKeyed(i: Input, j: Input, q: Claiming, h: string, vs: seq<Node>)
    requires forall n :: j.lookupError(n) == i.lookupError(n)
    ensures Keyed(i, q, h, vs) == Keyed(j, q, h, vs)
  {
    if vs != [] { SameKeyed(i, j, q, h, vs[..|vs| - 1]); }
  }

  lemma {:induction false} SameFound(i: Input, j: Input, vs: seq<Node>, e: Option<string>)
    requires forall n :: j.lookupError(n) == i.lookupError(n)
    ensures Found(i, vs) == Found(j, vs) && LostCount(i, vs, e) == LostCount(j, vs, e)
  {
    if vs != [] { SameFound(i, j, vs[..|vs| - 1], e); }
  }

  /** The verdict on a claimant, in a round where the first nodes agree. */
  lemma LoadOfClaimant(i: Input, c: Config<Event>, s: State<Event>, check: string, q: Claiming, h: string)
    requires IsRound(i, c, s) && i.nodes.Some? && check in i.nodeChecks && FirstAgree(i, q, c.parallelism)
    requires h in Loads(q, Visits(s.log, check))
    ensures |Keyed(i, q, h, VSphereNodes(i.nodes.value))| > 0
    ensures Loads(q, Visits(s.log, check))[h] == q.first(Keyed(i, q, h, VSphereNodes(i.nodes.value))[0])
  {
    var a := ClaimantIsEarly(i, c, s, check, q, h);
    assert AgreesWithFirst(i, q, h, a);
  }

  lemma SameClaimants(q: Claiming, v: seq<Node>, w: seq<Node>)
    requires multiset(v) == multiset(w)
    ensures forall h :: Claimant(q, v, h).Some? <==> Claimant(q, w, h).Some?
  {
    assert forall n :: n in v <==> n in multiset(v);
    assert forall n :: n in w <==> n in multiset(w);
  }

  /** Where the first nodes agree, any two rounds store the same results, whatever their schedules. */
  lemma ScheduleDoesNotMatterWhenFirstAgree(i: Input, c: Config<Event>, s: State<Event>, j: Input, d: Config<Event>,
                                            t: State<Event>,
                                            check: string, q: Claiming)
    requires RoundCompleted(i, c, s) && RoundCompleted(j, d, t) && SameButVerdicts(i, j, check)
    requires DistinctNames(i) && check in i.nodeChecks && c.parallelism == d.parallelism
    requires AsCalled(i, check, q, Visits(s.log, check)) && AsCalled(j, check, q, Visits(t.log, check))
    requires FirstAgree(i, q, c.parallelism)
    ensures multiset(Stored(Collected(s.log), check)) == multiset(Stored(Collected(t.log), check))
  {
    var vs, v, w := VSphereNodes(i.nodes.value), Visits(s.log, check), Visits(t.log, check);
    VisitsOfBoth(i, c, s, j, d, t, check);
    SameClaimants(q, v, w);
    forall h | h in Loads(q, v) ensures h in Loads(q, w) && Loads(q, v)[h] == Loads(q, w)[h] {
      LoadOfClaimant(i, c, s, check, q, h);
      AgreementCarries(i, j, q, c.parallelism);
      LoadOfClaimant(j, d, t, check, q, h);
      SameKeyed(i, j, q, h, vs);
    }
    assert Loads(q, v) == Loads(q, w);
    forall e: Option<string>
      ensures multiset(Stored(Collected(s.log), check))[e] == multiset(Stored(Collected(t.log), check))[e]
    {
      ResultCountOfBoth(i, c, s, j, d, t, check, q, e);
    }
  }

  lemma AgreementCarries(i: Input, j: Input, q: Claiming, p: nat)
    requires i.nodes.Some? && j.nodes == i.nodes && (forall n :: j.lookupError(n) == i.lookupError(n))
    requires FirstAgree(i, q, p)
    ensures FirstAgree(j, q, p)
  {
    var vs := VSphereNodes(i.nodes.value);
    forall h, a: nat | a < p && a < |Keyed(j, q, h, vs)| ensures AgreesWithFirst(j, q, h, a) {
      SameKeyed(i, j, q, h, vs);
      assert AgreesWithFirst(i, q, h, a);
    }
  }

  lemma VisitsOfBoth(i: Input, c: Config<Event>, s: State<Event>, j: Input, d: Config<Event>, t: State<Event>,
                     check: string)
    requires RoundCompleted(i, c, s) && RoundCompleted(j, d, t) && SameButVerdicts(i, j, check)
    requires DistinctNames(i) && check in i.nodeChecks
    ensures multiset(Visits(s.log, check)) == multiset(Visits(t.log, check))
  {
    NamesApart(i);
    EachFoundNodeVisitedOnce(i, c, s, check);
    EachFoundNodeVisitedOnce(j, d, t, check);
    SameFound(i, j, VSphereNodes(i.nodes.value), None);
  }

  /** How often both rounds store a result, compared by the claimants that end with it. */
  lemma ResultCountOfBoth(i: Input, c: Config<Event>, s: State<Event>, j: Input, d: Config<Event>, t: State<Event>,
                          check: string, q: Claiming, e: Option<string>)
    requires RoundCompleted(i, c, s) && RoundCompleted(j, d, t) && SameButVerdicts(i, j, check)
    requires DistinctNames(i) && check in i.nodeChecks
    requires AsCalled(i, check, q, Visits(s.log, check)) && AsCalled(j, check, q, Visits(t.log, check))
    requires |Loads(q, Visits(s.log, check))| == |Loads(q, Visits(t.log, check))|
    ensures multiset(Stored(Collected(s.log), check))[e] + |EndingWith(Loads(q, Visits(t.log, check)), e)|
         == multiset(Stored(Collected(t.log), check))[e] + |EndingWith(Loads(q, Visits(s.log, check)), e)|
  {
    VisitsOfBoth(i, c, s, j, d, t, check);
    StoredAsCalled(i, c, s, check, q, e);
    StoredAsCalled(j, d, t, check, q, e);
    SameFound(i, j, VSphereNodes(i.nodes.value), e);
    CompareOrders(q, Visits(s.log, check), Visits(t.log, check), e);
  }
}
