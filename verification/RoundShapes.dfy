/** The verdicts of the checks do not influence the schedule: a run of the thread pool is also one when the
    tasks end with other results. */
module RoundShapes {
  import opened Options
  import opened ThreadPool
  import opened PoolTheorems
  import opened Round
  import opened RoundTheorems
  import opened RoundCounts
  import opened ClaimSchedules

  // ---------------------------------------------------------------- scripts of the same shape

  /** The same event, or two results of the same check. */
  predicate Alike(e: Event, e': Event) {
    e == e' || (e.AddResult? && e'.AddResult? && e.name == e'.name)
  }

  predicate AlikeBodies(a: seq<Event>, b: seq<Event>) {
    |a| == |b| && forall k :: 0 <= k < |a| ==> Alike(a[k], b[k])
  }

  predicate AlikeOps(a: Op<Event>, b: Op<Event>) {
    match a
    case Submit(body) => b.Submit? && AlikeBodies(body, b.body)
    case Emit(e) => b.Emit? && Alike(e, b.event)
    case Wait => b.Wait?
  }

  ghost predicate SameShape(c: Config<Event>, d: Config<Event>) {
    && d.parallelism == c.parallelism && d.buffer == c.buffer && |d.script| == |c.script|
    && forall o :: 0 <= o < |c.script| ==> AlikeOps(c.script[o], d.script[o])
  }

  ghost predicate AlikeLogs(a: seq<Entry<Event>>, b: seq<Entry<Event>>) {
    |a| == |b| && forall k :: 0 <= k < |a| ==> AlikeEntries(a[k], b[k])
  }

  predicate AlikeEntries(x: Entry<Event>, y: Entry<Event>) {
    x.origin == y.origin && Alike(x.event, y.event)
  }

  /** The same state but for the results in the log. */
  ghost predicate AlikeStates(s: State<Event>, t: State<Event>) {
    t == s.(log := t.log) && AlikeLogs(s.log, t.log)
  }

  lemma SameTask(c: Config<Event>, d: Config<Event>, t: nat)
    requires SameShape(c, d)
    ensures AlikeBodies(Body(c, t), Body(d, t))
  {
    if t < |c.script| { assert AlikeOps(c.script[t], d.script[t]); }
  }

  lemma AlikeAppend(a: seq<Entry<Event>>, b: seq<Entry<Event>>, x: Entry<Event>, y: Entry<Event>)
    requires AlikeLogs(a, b) && AlikeEntries(x, y)
    ensures AlikeLogs(a + [x], b + [y])
  {
  }

  lemma SameStep(c: Config<Event>, d: Config<Event>, s: State<Event>, t: State<Event>, a: Action)
    requires SameShape(c, d) && AlikeStates(s, t) && Enabled(c, s, a)
    ensures Enabled(d, t, a) && AlikeStates(Next(c, s, a), Next(d, t, a))
  {
    if At(c, s) { assert AlikeOps(c.script[s.pc], d.script[s.pc]); }
    if a.Work? || a.Done? { SameTask(c, d, s.workers[a.w].task); }
    if a.Work? {
      var task := s.workers[a.w].task;
      var k := s.Pos(task);
      assert t.Pos(task) == k;
      AlikeAppend(s.log, t.log, Entry(task, Body(c, task)[k]), Entry(task, Body(d, task)[k]));
    } else if a.EmitNext? {
      AlikeAppend(s.log, t.log, Entry(s.pc, c.script[s.pc].event), Entry(s.pc, d.script[s.pc].event));
    }
  }

  lemma {:induction false} SameRun(c: Config<Event>, d: Config<Event>, s: State<Event>, trace: seq<Action>,
                                   s': State<Event>, t: State<Event>) returns (t': State<Event>)
    requires SameShape(c, d) && AlikeStates(s, t) && Run(c, s, trace, s')
    ensures AlikeStates(s', t') && Run(d, t, trace, t')
    decreases |trace|
  {
    t' := t;
    if trace != [] {
      SameStep(c, d, s, t, trace[0]);
      t' := SameRun(c, d, Next(c, s, trace[0]), trace[1..], s', Next(d, t, trace[0]));
    }
  }

  lemma {:induction false} SameVisits(a: seq<Entry<Event>>, b: seq<Entry<Event>>, check: string)
    requires AlikeLogs(a, b)
    ensures Visits(a, check) == Visits(b, check)
  {
    if a != [] {
      var n := |a| - 1;
      SameVisits(a[..n], b[..n], check);
      assert AlikeEntries(a[n], b[n]);
    }
  }

  // ---------------------------------------------------------------- rounds that differ in verdicts

  lemma {:induction false} AlikeChecks(i: Input, j: Input, node: Node, n: nat)
    requires n <= |i.nodeChecks| && j.nodeChecks == i.nodeChecks
    ensures AlikeBodies(CheckEvents(i, node, n), CheckEvents(j, node, n))
  {
    if n > 0 { AlikeChecks(i, j, node, n - 1); }
  }

  lemma {:induction false} SameFailures(i: Input, j: Input, err: Option<string>, n: nat)
    requires n <= |i.nodeChecks| && j.nodeChecks == i.nodeChecks
    ensures LookupFailed(i, err, n) == LookupFailed(j, err, n)
  {
    if n > 0 { SameFailures(i, j, err, n - 1); }
  }

  lemma AlikeNodes(i: Input, j: Input, node: Node)
    requires j.nodeChecks == i.nodeChecks && j.lookupError(node) == i.lookupError(node)
    ensures AlikeBodies(NodeBody(i, node), NodeBody(j, node))
  {
    var n := |i.nodeChecks|;
    AlikeChecks(i, j, node, n);
    SameFailures(i, j, i.lookupError(node), n);
  }

  lemma AlikeStatements(i: Input, j: Input, check: string, o: nat)
    requires SameButVerdicts(i, j, check) && o < |ScriptOf(i)|
    ensures |ScriptOf(j)| == |ScriptOf(i)| && AlikeOps(ScriptOf(i)[o], ScriptOf(j)[o])
  {
    var vs := VSphereNodes(i.nodes.value);
    ScriptLayout(i, o);
    ScriptLayout(j, 0);
    ScriptLayout(j, o);
    if FirstNode(i) <= o < FirstNode(i) + |vs| { AlikeNodes(i, j, vs[o - FirstNode(i)]); }
  }

  /** The round with other verdicts has the same runs, with the same calls in the same order. */
  lemma VerdictsDoNotSchedule(i: Input, c: Config<Event>, s: State<Event>, j: Input, check: string)
      returns (d: Config<Event>, t: State<Event>)
    requires RoundCompleted(i, c, s) && SameButVerdicts(i, j, check)
    ensures RoundCompleted(j, d, t) && d.parallelism == c.parallelism && d.buffer == c.buffer
    ensures forall k :: Visits(t.log, k) == Visits(s.log, k)
  {
    d := Config(c.parallelism, c.buffer, ScriptOf(j));
    AlikeScripts(i, c, j, d, check);
    t := SameReach(c, d, s);
    forall k ensures Visits(t.log, k) == Visits(s.log, k) { SameVisits(s.log, t.log, k); }
  }

  lemma AlikeScripts(i: Input, c: Config<Event>, j: Input, d: Config<Event>, check: string)
    requires i.nodes.Some? && c.script == ScriptOf(i) && SameButVerdicts(i, j, check)
    requires d == Config(c.parallelism, c.buffer, ScriptOf(j))
    ensures SameShape(c, d)
  {
    ScriptLayout(i, 0);
    AlikeStatements(i, j, check, 0);
    forall o: nat | o < |c.script| ensures AlikeOps(c.script[o], d.script[o]) { AlikeStatements(i, j, check, o); }
  }

  lemma SameReach(c: Config<Event>, d: Config<Event>, s: State<Event>) returns (t: State<Event>)
    requires SameShape(c, d) && Reachable(c, s)
    ensures Reachable(d, t) && AlikeStates(s, t)
  {
    var trace :| Run(c, Init(c), trace, s);
    t := SameRun(c, d, Init(c), trace, s, Init(d));
  }
}
