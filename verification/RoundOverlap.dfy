/** What a round that has returned can still do to the next one: its tasks go on, and the permission check keeps
    its claims in a map that StartCheck replaces (pkg/check/node_cluster_permissions.go). */
module RoundOverlap {
  import opened Options
  import opened ThreadPool
  import opened PoolTheorems
  import opened PoolSchedules
  import opened Round
  import opened RoundTheorems
  import opened RoundProtocol
  import opened RoundCounts
  import opened ClaimingChecks
  import opened ClaimSchedules

  // ---------------------------------------------------------------- calls that begin after the round has returned

  /** The round has returned, and a worker's next event is the call for this node. */
  ghost predicate IsLeftOverCall(c: Config<Event>, s: State<Event>, w: nat, check: string, node: Node) {
    !s.main.Active? && Enabled(c, s, Work(w)) && NextEvent(c, s, w) == CheckNode(check, node)
  }

  ghost predicate CanCallLater(c: Config<Event>, check: string, node: Node) {
    exists s, w :: Reachable(c, s) && IsLeftOverCall(c, s, w, check, node)
  }

  /** A found node of that identity, checked by `check`, behind which the round can go on to Wait. */
  ghost predicate CallCanOutlastRound(i: Input, c: Config<Event>, check: string, node: Node) {
    && i.nodes.Some? && check in i.nodeChecks
    && var vs := VSphereNodes(i.nodes.value);
       exists m :: 0 <= m < |vs| && vs[m] == node && OutlastsAt(i, c, vs, m)
  }

  lemma {:induction false} CalledCheckIsEnabled(i: Input, node: Node, n: nat, e: Event)
    requires n <= |i.nodeChecks| && e in CheckEvents(i, node, n) && e.CheckNode?
    ensures e.check in i.nodeChecks
  {
    if e in CheckEvents(i, node, n - 1) { CalledCheckIsEnabled(i, node, n - 1, e); }
  }

  lemma LeftOverCallOutlasts(i: Input, c: Config<Event>, s: State<Event>, w: nat, check: string, node: Node)
    requires IsRound(i, c, s) && c.parallelism > 0 && IsLeftOverCall(c, s, w, check, node)
    ensures CallCanOutlastRound(i, c, check, node)
  {
    RoundWaitsLast(i);
    ReachableInv(c, s);
    BusyIsRunning(c, s, w);
    EventOfTask(c, s.workers[w].task, NextEvent(c, s, w));
    var m := CheckedTask(i, s.workers[w].task, NextEvent(c, s, w));
    LeftOverNode(i, c, s, w, check, node, m);
  }

  lemma CallOfNode(i: Input, body: seq<Event>, node: Node, e: Event)
    requires body == NodeBody(i, node) && e in body && e.CheckNode?
    ensures e.node == node && e.check in i.nodeChecks
  {
    BodyEventNode(i, node, e);
    NodeIsChecked(i, node, e);
    CalledCheckIsEnabled(i, node, |i.nodeChecks|, e);
  }

  lemma BodyOfNode(i: Input, c: Config<Event>, m: nat)
    requires i.nodes.Some? && c.script == ScriptOf(i) && m < |VSphereNodes(i.nodes.value)|
    ensures Body(c, FirstNode(i) + m) == NodeBody(i, VSphereNodes(i.nodes.value)[m])
  {
    NodeStatement(i, m);
  }

  lemma LeftOverNode(i: Input, c: Config<Event>, s: State<Event>, w: nat, check: string, node: Node, m: nat)
    requires IsRound(i, c, s) && c.parallelism > 0 && IsLeftOverCall(c, s, w, check, node)
    requires i.nodes.Some? && m < |VSphereNodes(i.nodes.value)| && s.workers[w].task == FirstNode(i) + m
    requires i.lookupError(VSphereNodes(i.nodes.value)[m]).None?
    ensures CallCanOutlastRound(i, c, check, node)
  {
    BodyOfNode(i, c, m);
    CallOfNode(i, Body(c, FirstNode(i) + m), VSphereNodes(i.nodes.value)[m], NextEvent(c, s, w));
    LeftOverOutlasts(i, c, s, w, m);
  }

  lemma LeftOverOutlasts(i: Input, c: Config<Event>, s: State<Event>, w: nat, m: nat)
    requires IsRound(i, c, s) && c.parallelism > 0 && !s.main.Active? && Enabled(c, s, Work(w))
    requires i.nodes.Some? && m < |VSphereNodes(i.nodes.value)| && s.workers[w].task == FirstNode(i) + m
    requires i.lookupError(VSphereNodes(i.nodes.value)[m]).None?
    ensures OutlastsAt(i, c, VSphereNodes(i.nodes.value), m)
  {
    LeftOverIsExpired(i, c, s, w);
    if c.parallelism == 1 { LaterNodesFit(i, c, s, m); }
  }

  lemma LeftOverIsExpired(i: Input, c: Config<Event>, s: State<Event>, w: nat)
    requires i.nodes.Some? && IsRound(i, c, s) && !s.main.Active? && Enabled(c, s, Work(w))
    ensures s.main.Expired? && |s.workers| == c.parallelism
  {
    if s.main.Completed? { CompletedRoundLeavesNothing(i, c, s); }
    AtWait(i, c, s);
  }

  lemma EventIndex(body: seq<Event>, e: Event) returns (k: nat)
    requires e in body
    ensures k < |body| && body[k] == e
  {
    k :| k < |body| && body[k] == e;
  }

  lemma CallInBody(i: Input, c: Config<Event>, m: nat, check: string)
    requires i.nodes.Some? && c.script == ScriptOf(i) && m < |VSphereNodes(i.nodes.value)| && check in i.nodeChecks
    requires i.lookupError(VSphereNodes(i.nodes.value)[m]).None?
    ensures CheckNode(check, VSphereNodes(i.nodes.value)[m]) in Body(c, FirstNode(i) + m)
  {
    BodyOfNode(i, c, m);
    BodyCallsCheck(i, VSphereNodes(i.nodes.value)[m], check);
  }

  /** The task of a found node, and where the round waits. */
  lemma LeavableCall(i: Input, c: Config<Event>, check: string, node: Node) returns (t: nat, wait: nat)
    requires c.script == ScriptOf(i) && CallCanOutlastRound(i, c, check, node)
    ensures WaitIsLast(c.script) && CanBeLeft(c, t, wait) && CheckNode(check, node) in Body(c, t)
  {
    var vs := VSphereNodes(i.nodes.value);
    var m: nat :| m < |vs| && vs[m] == node && OutlastsAt(i, c, vs, m);
    t, wait := FirstNode(i) + m, WaitIndex(i);
    RoundWaitsLast(i);
    FoundNodeCanBeLeft(i, c, m);
    CallInBody(i, c, m, check);
  }

  lemma ExpireBeforeEvent(c: Config<Event>, t: nat, wait: nat, e: Event) returns (s: State<Event>, w: nat)
    requires WaitIsLast(c.script) && c.parallelism > 0 && CanBeLeft(c, t, wait) && e in Body(c, t)
    ensures Reachable(c, s) && !s.main.Active? && Enabled(c, s, Work(w)) && NextEvent(c, s, w) == e
  {
    var k := EventIndex(Body(c, t), e);
    s := ExpireWhileRunning(c, t, k, wait);
    w := 0;
    ReachableInv(c, s);
  }

  /** A run that returns while a worker is about to make the call. */
  lemma ReturnBeforeCall(i: Input, c: Config<Event>, check: string, node: Node) returns (s: State<Event>, w: nat)
    requires c.script == ScriptOf(i) && c.parallelism > 0 && CallCanOutlastRound(i, c, check, node)
    ensures Reachable(c, s) && IsLeftOverCall(c, s, w, check, node)
  {
    var t, wait := LeavableCall(i, c, check, node);
    s, w := ExpireBeforeEvent(c, t, wait, CheckNode(check, node));
  }

  /** A call can begin after its round has returned exactly when the round can go on to Wait behind its node. */
  lemma LeftOverCallsExactlyWhen(i: Input, c: Config<Event>, check: string, node: Node)
    requires c.script == ScriptOf(i) && c.parallelism > 0
    ensures CanCallLater(c, check, node) <==> CallCanOutlastRound(i, c, check, node)
  {
    if CanCallLater(c, check, node) {
      var s, w :| Reachable(c, s) && IsLeftOverCall(c, s, w, check, node);
      LeftOverCallOutlasts(i, c, s, w, check, node);
    }
    if CallCanOutlastRound(i, c, check, node) {
      var s, w := ReturnBeforeCall(i, c, check, node);
    }
  }

  // ---------------------------------------------------------------- two rounds

  /** A call since the next round's StartCheck, of the next round or left over. */
  datatype Caller = Caller(leftOver: bool, node: Node)

  function NodesOf(callers: seq<Caller>): (nodes: seq<Node>)
    ensures |nodes| == |callers| && forall k :: 0 <= k < |nodes| ==> nodes[k] == callers[k].node
  {
    seq(|callers|, k requires 0 <= k < |callers| => callers[k].node)
  }

  function Side(callers: seq<Caller>, leftOver: bool): seq<Node> {
    if callers == [] then []
    else
      var last := callers[|callers| - 1];
      Side(callers[..|callers| - 1], leftOver) + if last.leftOver == leftOver then [last.node] else []
  }

  /** The calls that a round which has returned in state `s` makes from then on in some run. */
  ghost predicate MakesLater(c: Config<Event>, s: State<Event>, check: string, calls: seq<Node>) {
    exists trace, s' :: Run(c, s, trace, s') && Visits(s'.log, check) == Visits(s.log, check) + calls
  }

  /** The calls on one map of claims: those of the next round, and in any order with them those that the older one
      makes after StartCheck of the next. The pools share nothing else. */
  ghost predicate Overlap(c: Config<Event>, s: State<Event>, t: State<Event>, check: string, callers: seq<Caller>) {
    && Reachable(c, s) && !s.main.Active?
    && MakesLater(c, s, check, Side(callers, true)) && Side(callers, false) == Visits(t.log, check)
  }

  /** The call that claims a key. */
  function ClaimingCaller(q: Claiming, callers: seq<Caller>, h: string): (r: Option<Caller>)
    ensures r.Some? ==> r.value in callers && q.key(r.value.node) == Some(h)
    ensures r.None? ==> forall x :: x in callers ==> q.key(x.node) != Some(h)
  {
    if callers == [] then None
    else
      var earlier, last := ClaimingCaller(q, callers[..|callers| - 1], h), callers[|callers| - 1];
      assert forall x :: x in callers ==> x in callers[..|callers| - 1] || x == last;
      if earlier.Some? then earlier else if q.key(last.node) == Some(h) then Some(last) else None
  }

  lemma {:induction false} ClaimingCallerIsClaimant(q: Claiming, callers: seq<Caller>, h: string)
    ensures var r := ClaimingCaller(q, callers, h);
      Claimant(q, NodesOf(callers), h) == if r.Some? then Some(r.value.node) else None
  {
    if callers != [] {
      var n := |callers| - 1;
      ClaimingCallerIsClaimant(q, callers[..n], h);
      assert NodesOf(callers)[..n] == NodesOf(callers[..n]);
    }
  }

  lemma {:induction false} ClaimStays(q: Claiming, callers: seq<Caller>, k: nat, h: string)
    requires k <= |callers| && ClaimingCaller(q, callers[..k], h).Some?
    ensures ClaimingCaller(q, callers, h) == ClaimingCaller(q, callers[..k], h)
  {
    if k < |callers| {
      assert callers[..|callers| - 1][..k] == callers[..k];
      ClaimStays(q, callers[..|callers| - 1], k, h);
    } else {
      assert callers[..k] == callers;
    }
  }

  /** If an older round's call has claimed a key, no call of the next round looks at it: all end with nil. */
  lemma LeftOverClaimHides(q: Claiming, callers: seq<Caller>, h: string, k: nat)
    requires ClaimingCaller(q, callers, h).Some? && ClaimingCaller(q, callers, h).value.leftOver
    requires k < |callers| && !callers[k].leftOver && q.key(callers[k].node) == Some(h)
    ensures VerdictAfter(q, NodesOf(callers[..k]), callers[k].node) == None
  {
    if ClaimingCaller(q, callers[..k], h).None? {
      assert callers[..k + 1][..k] == callers[..k];
      ClaimStays(q, callers, k + 1, h);
    }
    ClaimingCallerIsClaimant(q, callers[..k], h);
  }

  // ---------------------------------------------------------------- whose claims reach the next round

  lemma {:induction false} SideContains(callers: seq<Caller>, x: Caller)
    requires x in callers
    ensures x.node in Side(callers, x.leftOver)
  {
    var n := |callers| - 1;
    if x in callers[..n] { SideContains(callers[..n], x); }
  }

  lemma VisitsStep(c: Config<Event>, s: State<Event>, a: Action, check: string)
    requires Inv(c, s) && Enabled(c, s, a) && !s.main.Active?
    ensures !Next(c, s, a).main.Active?
    ensures Visits(Next(c, s, a).log, check)
         == Visits(s.log, check)
            + if a.Work? && NextEvent(c, s, a.w).CheckNode? && NextEvent(c, s, a.w).check == check
              then [NextEvent(c, s, a.w).node] else []
  {
    if a.Work? {
      var x := Entry(s.workers[a.w].task, NextEvent(c, s, a.w));
      assert (s.log + [x])[..|s.log|] == s.log;
    }
  }

  /** Each call that is made later is at some time the next event of a worker. */
  lemma {:induction false} LaterCallIsLeftOver(c: Config<Event>, s: State<Event>, trace: seq<Action>, s': State<Event>,
                                               check: string, calls: seq<Node>, node: Node)
    requires WaitIsLast(c.script) && Reachable(c, s) && !s.main.Active? && Run(c, s, trace, s')
    requires Visits(s'.log, check) == Visits(s.log, check) + calls && node in calls
    ensures CanCallLater(c, check, node)
    decreases |trace|
  {
    if trace != [] {
      var a := trace[0];
      ReachableInv(c, s);
      VisitsStep(c, s, a, check);
      var next := Reach(c, s, a);
      if a.Work? && NextEvent(c, s, a.w) == CheckNode(check, node) {
        assert IsLeftOverCall(c, s, a.w, check, node);
      } else {
        var rest := RestOfCalls(c, next, trace[1..], s', check, Visits(s.log, check), Visits(next.log, check), calls);
        LaterCallIsLeftOver(c, next, trace[1..], s', check, rest, node);
      }
    }
  }

  lemma {:induction false} VisitsGrow(c: Config<Event>, s: State<Event>, trace: seq<Action>, s': State<Event>,
                                      check: string)
    requires WaitIsLast(c.script) && Reachable(c, s) && !s.main.Active? && Run(c, s, trace, s')
    ensures Visits(s.log, check) <= Visits(s'.log, check)
    decreases |trace|
  {
    if trace != [] {
      ReachableInv(c, s);
      VisitsStep(c, s, trace[0], check);
      var next := Reach(c, s, trace[0]);
      VisitsGrow(c, next, trace[1..], s', check);
    }
  }

  /** After one call or none, the calls that remain. */
  lemma RestOfCalls(c: Config<Event>, next: State<Event>, trace: seq<Action>, s': State<Event>, check: string,
                    before: seq<Node>, after: seq<Node>, calls: seq<Node>) returns (rest: seq<Node>)
    requires WaitIsLast(c.script) && Reachable(c, next) && !next.main.Active? && Run(c, next, trace, s')
    requires Visits(s'.log, check) == before + calls && after == Visits(next.log, check)
    requires after == before || (|after| == |before| + 1 && after[..|before|] == before)
    ensures Visits(s'.log, check) == after + rest
    ensures rest == calls ||
            (calls != [] && |after| == |before| + 1 && calls[0] == after[|before|] && rest == calls[1..])
  {
    VisitsGrow(c, next, trace, s', check);
    rest := Visits(s'.log, check)[|after|..];
    if after == before { assert rest == calls; } else { assert rest == calls[1..]; }
  }

  lemma OneLeftOverCall(c: Config<Event>, s: State<Event>, w: nat, check: string, node: Node)
    requires WaitIsLast(c.script) && Reachable(c, s) && IsLeftOverCall(c, s, w, check, node)
    ensures MakesLater(c, s, check, [node])
  {
    ReachableInv(c, s);
    VisitsStep(c, s, Work(w), check);
    var trace, s' := [Work(w)], Next(c, s, Work(w));
    assert trace[1..] == [] && Run(c, s, trace, s');
  }

  /** The calls of the next round after some callers. */
  function Followed(first: seq<Caller>, calls: seq<Node>): seq<Caller> {
    if calls == [] then first
    else Followed(first, calls[..|calls| - 1]) + [Caller(false, calls[|calls| - 1])]
  }

  lemma {:induction false} LeftOverFirst(q: Claiming, node: Node, calls: seq<Node>, h: string)
    requires q.key(node) == Some(h)
    ensures var callers := Followed([Caller(true, node)], calls);
      && Side(callers, true) == [node] && Side(callers, false) == calls
      && ClaimingCaller(q, callers, h) == Some(Caller(true, node))
  {
    var n := |calls|;
    if n == 0 {
      assert [Caller(true, node)][..0] == [];
    } else {
      var before, last := Followed([Caller(true, node)], calls[..n - 1]), Caller(false, calls[n - 1]);
      LeftOverFirst(q, node, calls[..n - 1], h);
      assert (before + [last])[..|before|] == before;
      assert calls == calls[..n - 1] + [calls[n - 1]];
    }
  }

  /** Some overlap with the next round in which a call of the older one claims the key. */
  ghost predicate ClaimReachesNext(c: Config<Event>, t: State<Event>, check: string, q: Claiming, h: string) {
    exists s, callers ::
      && Overlap(c, s, t, check, callers)
      && ClaimingCaller(q, callers, h).Some? && ClaimingCaller(q, callers, h).value.leftOver
  }

  ghost predicate KeyCanOutlastRound(i: Input, c: Config<Event>, check: string, q: Claiming, h: string) {
    exists node :: q.key(node) == Some(h) && CallCanOutlastRound(i, c, check, node)
  }

  /** A claim of an older round can reach the next one, whatever that one does, exactly when the older round can go
      on to Wait behind one of its found nodes with the key. */
  lemma ClaimReachesNextExactlyWhen(i: Input, c: Config<Event>, t: State<Event>, check: string, q: Claiming, h: string)
    requires c.script == ScriptOf(i) && c.parallelism > 0
    ensures ClaimReachesNext(c, t, check, q, h) <==> KeyCanOutlastRound(i, c, check, q, h)
  {
    RoundWaitsLast(i);
    if ClaimReachesNext(c, t, check, q, h) {
      var s, callers :| Overlap(c, s, t, check, callers)
                        && ClaimingCaller(q, callers, h).Some? && ClaimingCaller(q, callers, h).value.leftOver;
      ReachingClaim(i, c, s, t, check, q, h, callers);
    }
    if KeyCanOutlastRound(i, c, check, q, h) {
      var node :| q.key(node) == Some(h) && CallCanOutlastRound(i, c, check, node);
      var s, w := ReturnBeforeCall(i, c, check, node);
      OneLeftOverCall(c, s, w, check, node);
      LeftOverFirst(q, node, Visits(t.log, check), h);
      assert Overlap(c, s, t, check, Followed([Caller(true, node)], Visits(t.log, check)));
    }
  }

  lemma ReachingClaim(i: Input, c: Config<Event>, s: State<Event>, t: State<Event>, check: string, q: Claiming,
                      h: string,
                      callers: seq<Caller>)
    requires c.script == ScriptOf(i) && c.parallelism > 0 && WaitIsLast(c.script) && Overlap(c, s, t, check, callers)
    requires ClaimingCaller(q, callers, h).Some? && ClaimingCaller(q, callers, h).value.leftOver
    ensures KeyCanOutlastRound(i, c, check, q, h)
  {
    var x := ClaimingCaller(q, callers, h).value;
    SideContains(callers, x);
    var trace, s' :| Run(c, s, trace, s') && Visits(s'.log, check) == Visits(s.log, check) + Side(callers, true);
    LaterCallIsLeftOver(c, s, trace, s', check, Side(callers, true), x.node);
    LeftOverCallsExactlyWhen(i, c, check, x.node);
  }
}
