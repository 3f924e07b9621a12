/** What every interleaving of a round guarantees: each result is stored exactly once, StartCheck
    comes before and FinishCheck after every CheckNode, and which goroutines may outlive a round. */
module RoundTheorems {
  import opened Options
  import opened ThreadPool
  import opened PoolTheorems
  import opened ResultCollection
  import opened Round

  // ---------------------------------------------------------------- selecting events from a log

  ghost function Pick<E, R>(log: seq<Entry<E>>, f: E -> Option<R>): seq<R> {
    if log == [] then []
    else
      var last := log[|log| - 1];
      Pick(log[..|log| - 1], f) + Chosen(f(last.event))
  }

  ghost function Chosen<R>(r: Option<R>): seq<R> {
    if r.None? then [] else [r.value]
  }

  lemma SameRemainder<T>(a: multiset<T>, b: multiset<T>, x: T)
    requires a + multiset{x} == b + multiset{x}
    ensures a == b
  {
    assert a == (a + multiset{x}) - multiset{x} && b == (b + multiset{x}) - multiset{x};
  }

  ghost function One<R>(r: Option<R>): multiset<R> {
    if r.None? then multiset{} else multiset{r.value}
  }

  ghost function Bag<E, R>(log: seq<Entry<E>>, f: E -> Option<R>): multiset<R> {
    if log == [] then multiset{} else Bag(log[..|log| - 1], f) + One(f(log[|log| - 1].event))
  }

  lemma {:induction false} BagIsPick<E, R>(log: seq<Entry<E>>, f: E -> Option<R>)
    ensures Bag(log, f) == multiset(Pick(log, f))
  {
    if log != [] { BagIsPick(log[..|log| - 1], f); }
  }

  lemma {:induction false} BagConcat<E, R>(a: seq<Entry<E>>, b: seq<Entry<E>>, f: E -> Option<R>)
    ensures Bag(a + b, f) == Bag(a, f) + Bag(b, f)
  {
    if b == [] {
      assert a + b == a;
    } else {
      assert (a + b)[..|a + b| - 1] == a + b[..|b| - 1];
      BagConcat(a, b[..|b| - 1], f);
    }
  }

  lemma BagSnoc<E, R>(a: seq<Entry<E>>, x: Entry<E>, f: E -> Option<R>)
    ensures Bag(a + [x], f) == Bag(a, f) + One(f(x.event))
  {
    assert (a + [x])[..|a|] == a;
  }

  lemma BagRemove<E, R>(a: seq<Entry<E>>, x: Entry<E>, b: seq<Entry<E>>, f: E -> Option<R>)
    ensures Bag(a + [x] + b, f) == Bag(a + b, f) + One(f(x.event))
  {
    BagConcat(a + [x], b, f);
    BagSnoc(a, x, f);
    BagConcat(a, b, f);
  }

  lemma {:induction false} BagPermutation<E, R>(a: seq<Entry<E>>, b: seq<Entry<E>>, f: E -> Option<R>)
    requires multiset(a) == multiset(b)
    ensures Bag(a, f) == Bag(b, f)
    decreases |a|
  {
    if a == [] {
      assert |multiset(b)| == 0;
    } else {
      var init, x := a[..|a| - 1], a[|a| - 1];
      assert a == init + [x];
      assert x in multiset(b);
      var k :| 0 <= k < |b| && b[k] == x;
      var before, after := b[..k], b[k + 1..];
      assert b == before + [x] + after;
      SameRemainder(multiset(init), multiset(before + after), x);
      BagPermutation(init, before + after, f);
      BagRemove(before, x, after, f);
    }
  }

  /** The values picked from some events, without their order. */
  ghost function Picked<E, R>(events: seq<E>, f: E -> Option<R>): multiset<R> {
    if events == [] then multiset{} else Picked(events[..|events| - 1], f) + One(f(events[|events| - 1]))
  }

  lemma {:induction false} PickedConcat<E, R>(a: seq<E>, b: seq<E>, f: E -> Option<R>)
    ensures Picked(a + b, f) == Picked(a, f) + Picked(b, f)
  {
    if b == [] {
      assert a + b == a;
    } else {
      assert (a + b)[..|a + b| - 1] == a + b[..|b| - 1];
      PickedConcat(a, b[..|b| - 1], f);
    }
  }

  lemma PickedOne<E, R>(e: E, f: E -> Option<R>)
    ensures Picked([e], f) == One(f(e))
  {
    assert [e][..0] == [];
  }

  lemma PickedAppend<E, R>(es: seq<E>, x: E, f: E -> Option<R>)
    ensures Picked(es + [x], f) == Picked(es, f) + One(f(x))
  {
    assert (es + [x])[..|es|] == es;
  }

  /** What is picked does not depend on the order. */
  lemma {:induction false} PickedPermutation<E, R>(a: seq<E>, b: seq<E>, f: E -> Option<R>)
    requires multiset(a) == multiset(b)
    ensures Picked(a, f) == Picked(b, f)
    decreases |a|
  {
    if a == [] {
      assert |multiset(b)| == 0;
    } else {
      var init, x := a[..|a| - 1], a[|a| - 1];
      assert a == init + [x];
      assert x in multiset(b);
      var k :| 0 <= k < |b| && b[k] == x;
      var before, after := b[..k], b[k + 1..];
      assert b == before + [x] + after;
      SameRemainder(multiset(init), multiset(before + after), x);
      PickedPermutation(init, before + after, f);
      PickedConcat(before + [x], after, f);
      PickedAppend(before, x, f);
      PickedConcat(before, after, f);
    }
  }

  lemma PickedTwo<E, R>(es: seq<E>, x: E, y: E, f: E -> Option<R>)
    ensures Picked(es + [x, y], f) == Picked(es, f) + One(f(x)) + One(f(y))
  {
    assert es + [x, y] == es + [x] + [y];
    PickedAppend(es, x, f);
    PickedAppend(es + [x], y, f);
  }

  lemma {:induction false} StampedBag<E, R>(events: seq<E>, o: nat, f: E -> Option<R>)
    ensures Bag(Stamp(events, o), f) == Picked(events, f)
  {
    if events != [] {
      var init := events[..|events| - 1];
      assert Stamp(events, o)[..|events| - 1] == Stamp(init, o);
      StampedBag(init, o, f);
    }
  }

  lemma SequentialStep<E, R>(script: seq<Op<E>>, n: nat, f: E -> Option<R>)
    requires n < |script|
    ensures Bag(Sequential(script, n + 1), f) == Bag(Sequential(script, n), f) + Picked(OpEvents(script[n]), f)
  {
    BagConcat(Sequential(script, n), Stamp(OpEvents(script[n]), n), f);
    StampedBag(OpEvents(script[n]), n, f);
  }

  // ---------------------------------------------------------------- results

  ghost function ResultNamed(name: string): Event -> Option<Option<string>> {
    (e: Event) => if e.AddResult? && e.name == name then Some(e.error) else None
  }

  /** The calls AddResult(name, _) of a log, in order. */
  ghost function ResultsIn(log: seq<Entry<Event>>, name: string): seq<Option<string>> {
    Pick(log, ResultNamed(name))
  }

  /** The collector's map after the AddResult calls of a log. */
  ghost function Collected(log: seq<Entry<Event>>): Results {
    if log == [] then map[]
    else
      var e := log[|log| - 1].event;
      var m := Collected(log[..|log| - 1]);
      if e.AddResult? then Store(m, e.name, e.error) else m
  }

  lemma {:induction false} CollectedIsResultsIn(log: seq<Entry<Event>>, name: string)
    ensures Stored(Collected(log), name) == ResultsIn(log, name)
    ensures name in Collected(log) ==> ResultsIn(log, name) != []
  {
    if log != [] { CollectedIsResultsIn(log[..|log| - 1], name); }
  }

  predicate DistinctNames(i: Input) {
    Distinct(i.clusterChecks + i.nodeChecks)
  }

  /** What a node check reports for a node: the lookup's error, or its own verdict. */
  function Verdict(i: Input, check: string, node: Node): Option<string> {
    if i.lookupError(node).Some? then i.lookupError(node) else i.nodeError(check, node)
  }

  function Verdicts(i: Input, check: string, nodes: seq<Node>): seq<Option<string>> {
    if nodes == [] then [] else Verdicts(i, check, nodes[..|nodes| - 1]) + [Verdict(i, check, nodes[|nodes| - 1])]
  }

  lemma NamesApart(i: Input)
    requires DistinctNames(i)
    ensures Distinct(i.clusterChecks) && Distinct(i.nodeChecks)
    ensures forall name :: name in i.clusterChecks ==> name !in i.nodeChecks
  {
    var nc, all := |i.clusterChecks|, i.clusterChecks + i.nodeChecks;
    assert forall a :: 0 <= a < nc ==> all[a] == i.clusterChecks[a];
    assert forall b :: 0 <= b < |i.nodeChecks| ==> all[nc + b] == i.nodeChecks[b];
    forall a, b | 0 <= a < nc && 0 <= b < |i.nodeChecks| ensures i.clusterChecks[a] != i.nodeChecks[b] {
      assert all[a] == i.clusterChecks[a] && all[nc + b] == i.nodeChecks[b];
    }
  }

  // ---------------------------------------------------------------- what is picked from the tasks

  ghost function When<R>(b: bool, out: multiset<R>): multiset<R> {
    if b then out else multiset{}
  }

  ghost predicate Among(s: seq<string>, n: nat, name: string)
    requires n <= |s|
  {
    name in s[..n]
  }

  lemma AmongStep<R>(s: seq<string>, name: string, out: multiset<R>, n: nat)
    requires Distinct(s) && 0 < n <= |s|
    ensures When(Among(s, n, name), out) == When(Among(s, n - 1, name), out) + When(s[n - 1] == name, out)
  {
    assert s[..n] == s[..n - 1] + [s[n - 1]];
  }

  lemma {:induction false} ChecksPicked<R>(i: Input, node: Node, f: Event -> Option<R>, name: string,
                                           out: multiset<R>, n: nat)
    requires Distinct(i.nodeChecks) && n <= |i.nodeChecks|
    requires forall k :: One(f(CheckNode(k, node))) + One(f(AddResult(k, i.nodeError(k, node)))) == When(k == name, out)
    ensures Picked(CheckEvents(i, node, n), f) == When(Among(i.nodeChecks, n, name), out)
  {
    if n > 0 {
      var k := i.nodeChecks[n - 1];
      ChecksPicked(i, node, f, name, out, n - 1);
      PickedTwo(CheckEvents(i, node, n - 1), CheckNode(k, node), AddResult(k, i.nodeError(k, node)), f);
      AmongStep(i.nodeChecks, name, out, n);
    }
  }

  lemma {:induction false} FailuresPicked<R>(i: Input, err: Option<string>, f: Event -> Option<R>, name: string,
                                             out: multiset<R>, n: nat)
    requires Distinct(i.nodeChecks) && n <= |i.nodeChecks|
    requires forall k :: One(f(AddResult(k, err))) == When(k == name, out)
    ensures Picked(LookupFailed(i, err, n), f) == When(Among(i.nodeChecks, n, name), out)
  {
    if n > 0 {
      FailuresPicked(i, err, f, name, out, n - 1);
      PickedAppend(LookupFailed(i, err, n - 1), AddResult(i.nodeChecks[n - 1], err), f);
      AmongStep(i.nodeChecks, name, out, n);
    }
  }

  /** From a node's task: `found` if its VM was found, `lost` if not, once if the check is enabled. */
  lemma BodyPicked<R>(i: Input, node: Node, f: Event -> Option<R>, name: string, found: multiset<R>, lost: multiset<R>)
    requires Distinct(i.nodeChecks) && f(VmLookup(node)).None?
    requires forall k ::
      One(f(CheckNode(k, node))) + One(f(AddResult(k, i.nodeError(k, node)))) == When(k == name, found)
    requires forall k :: One(f(AddResult(k, i.lookupError(node)))) == When(k == name, lost)
    ensures Picked(NodeBody(i, node), f)
         == When(name in i.nodeChecks, if i.lookupError(node).None? then found else lost)
  {
    var n, err := |i.nodeChecks|, i.lookupError(node);
    assert i.nodeChecks[..n] == i.nodeChecks;
    PickedOne(VmLookup(node), f);
    if err.Some? {
      FailuresPicked(i, err, f, name, lost, n);
      PickedConcat([VmLookup(node)], LookupFailed(i, err, n), f);
    } else {
      ChecksPicked(i, node, f, name, found, n);
      PickedConcat([VmLookup(node)], CheckEvents(i, node, n), f);
    }
  }

  lemma ClusterPicked<R>(i: Input, check: string, f: Event -> Option<R>)
    ensures Picked(ClusterBody(i, check), f)
         == One(f(ClusterCheck(check))) + One(f(AddResult(check, i.clusterError(check))))
  {
    PickedTwo([], ClusterCheck(check), AddResult(check, i.clusterError(check)), f);
    assert [] + ClusterBody(i, check) == ClusterBody(i, check);
  }

  // ---------------------------------------------------------------- what is picked from the sequential execution

  ghost predicate IgnoresMain<R>(f: Event -> Option<R>) {
    forall e: Event :: e.StartCheck? || e.FinishCheck? ==> f(e).None?
  }

  ghost function ClusterPicks<R>(i: Input, f: Event -> Option<R>, n: nat): multiset<R>
    requires n <= |i.clusterChecks|
  {
    if n == 0 then multiset{} else ClusterPicks(i, f, n - 1) + Picked(ClusterBody(i, i.clusterChecks[n - 1]), f)
  }

  ghost function NodePicks<R>(i: Input, f: Event -> Option<R>, nodes: seq<Node>): multiset<R> {
    if nodes == [] then multiset{}
    else NodePicks(i, f, nodes[..|nodes| - 1]) + Picked(NodeBody(i, nodes[|nodes| - 1]), f)
  }

  ghost function NodesBefore(i: Input, vs: seq<Node>, n: nat): (m: nat)
    ensures m <= |vs|
  {
    if n <= FirstNode(i) then 0 else if n <= FirstNode(i) + |vs| then n - FirstNode(i) else |vs|
  }

  ghost function PicksBefore<R>(i: Input, vs: seq<Node>, f: Event -> Option<R>, n: nat): multiset<R> {
    ClusterPicks(i, f, if n <= |i.clusterChecks| then n else |i.clusterChecks|)
    + NodePicks(i, f, vs[..NodesBefore(i, vs, n)])
  }

  lemma ClusterStep<R>(i: Input, vs: seq<Node>, f: Event -> Option<R>, n: nat)
    requires n < |i.clusterChecks|
    ensures PicksBefore(i, vs, f, n + 1) == PicksBefore(i, vs, f, n) + Picked(ClusterBody(i, i.clusterChecks[n]), f)
  {
    var earlier, body := ClusterPicks(i, f, n), Picked(ClusterBody(i, i.clusterChecks[n]), f);
    assert ClusterPicks(i, f, n + 1) == earlier + body;
  }

  lemma NodeStep<R>(i: Input, vs: seq<Node>, f: Event -> Option<R>, m: nat)
    requires m < |vs|
    ensures PicksBefore(i, vs, f, FirstNode(i) + m + 1)
         == PicksBefore(i, vs, f, FirstNode(i) + m) + Picked(NodeBody(i, vs[m]), f)
  {
    assert vs[..m + 1][..m] == vs[..m];
    var earlier, body := NodePicks(i, f, vs[..m]), Picked(NodeBody(i, vs[m]), f);
    assert NodePicks(i, f, vs[..m + 1]) == earlier + body;
  }

  lemma IdleStep<R>(i: Input, vs: seq<Node>, f: Event -> Option<R>, n: nat)
    requires |i.clusterChecks| <= n < FirstNode(i) || FirstNode(i) + |vs| <= n
    ensures PicksBefore(i, vs, f, n + 1) == PicksBefore(i, vs, f, n)
  {
  }

  lemma StatementPicks<R>(i: Input, vs: seq<Node>, f: Event -> Option<R>, n: nat)
    requires IgnoresMain(f) && n < FirstNode(i) + |vs| + 1 + |i.nodeChecks|
    ensures PicksBefore(i, vs, f, n + 1) == PicksBefore(i, vs, f, n) + Picked(OpEvents(StatementAt(i, vs, n)), f)
  {
    if n < |i.clusterChecks| {
      ClusterStep(i, vs, f, n);
    } else if FirstNode(i) <= n < FirstNode(i) + |vs| {
      NodeStep(i, vs, f, n - FirstNode(i));
    } else {
      IdleStep(i, vs, f, n);
      MainPicksNothing(i, vs, f, n);
    }
  }

  lemma MainPicksNothing<R>(i: Input, vs: seq<Node>, f: Event -> Option<R>, n: nat)
    requires IgnoresMain(f)
    requires |i.clusterChecks| <= n < FirstNode(i) ||
      FirstNode(i) + |vs| <= n < FirstNode(i) + |vs| + 1 + |i.nodeChecks|
    ensures Picked(OpEvents(StatementAt(i, vs, n)), f) == multiset{}
  {
    var op := StatementAt(i, vs, n);
    if op.Emit? { PickedOne(op.event, f); }
  }

  lemma {:induction false} SequentialPicks<R>(i: Input, f: Event -> Option<R>, n: nat)
    requires i.nodes.Some? && IgnoresMain(f) && n <= |ScriptOf(i)|
    ensures Bag(Sequential(ScriptOf(i), n), f) == PicksBefore(i, VSphereNodes(i.nodes.value), f, n)
  {
    if n == 0 {
      assert VSphereNodes(i.nodes.value)[..0] == [];
    } else {
      var script, vs := ScriptOf(i), VSphereNodes(i.nodes.value);
      SequentialPicks(i, f, n - 1);
      SequentialStep(script, n - 1, f);
      ScriptLayout(i, n - 1);
      StatementPicks(i, vs, f, n - 1);
      assert script[n - 1] == StatementAt(i, vs, n - 1);
    }
  }

  lemma WholeScriptPicks<R>(i: Input, f: Event -> Option<R>)
    requires i.nodes.Some? && IgnoresMain(f)
    ensures Bag(Sequential(ScriptOf(i), |ScriptOf(i)|), f)
         == ClusterPicks(i, f, |i.clusterChecks|) + NodePicks(i, f, VSphereNodes(i.nodes.value))
  {
    SequentialPicks(i, f, |ScriptOf(i)|);
    ScriptLayout(i, WaitIndex(i));
    var vs := VSphereNodes(i.nodes.value);
    assert vs[..|vs|] == vs;
  }

  /** From any completed round: what each cluster check and each vSphere node yields, once. */
  lemma RoundPicks<R>(i: Input, c: Config<Event>, s: State<Event>, f: Event -> Option<R>)
    requires RoundCompleted(i, c, s) && IgnoresMain(f)
    ensures multiset(Pick(s.log, f))
         == ClusterPicks(i, f, |i.clusterChecks|) + NodePicks(i, f, VSphereNodes(i.nodes.value))
  {
    PassedWait(i, c, s);
    CompletedRunIsPermutation(c, s);
    BagPermutation(s.log, Sequential(c.script, |c.script|), f);
    BagIsPick(s.log, f);
    WholeScriptPicks(i, f);
  }

  // ---------------------------------------------------------------- results of a completed round

  lemma NodeResult(i: Input, name: string, node: Node)
    requires Distinct(i.nodeChecks)
    ensures Picked(NodeBody(i, node), ResultNamed(name)) == When(name in i.nodeChecks, multiset{Verdict(i, name, node)})
  {
    BodyPicked(i, node, ResultNamed(name), name, multiset{i.nodeError(name, node)}, multiset{i.lookupError(node)});
  }

  lemma {:induction false} NodeResults(i: Input, name: string, nodes: seq<Node>)
    requires Distinct(i.nodeChecks)
    ensures NodePicks(i, ResultNamed(name), nodes) == When(name in i.nodeChecks, multiset(Verdicts(i, name, nodes)))
  {
    if nodes != [] {
      var init, last := nodes[..|nodes| - 1], nodes[|nodes| - 1];
      NodeResults(i, name, init);
      NodeResult(i, name, last);
      assert multiset(Verdicts(i, name, nodes)) == multiset(Verdicts(i, name, init)) + multiset{Verdict(i, name, last)};
    }
  }

  lemma {:induction false} ClusterResults(i: Input, name: string, n: nat)
    requires Distinct(i.clusterChecks) && n <= |i.clusterChecks|
    ensures ClusterPicks(i, ResultNamed(name), n)
         == When(Among(i.clusterChecks, n, name), multiset{i.clusterError(name)})
  {
    if n > 0 {
      ClusterResults(i, name, n - 1);
      ClusterPicked(i, i.clusterChecks[n - 1], ResultNamed(name));
      AmongStep(i.clusterChecks, name, multiset{i.clusterError(name)}, n);
    }
  }

  /** The results a round owes: one per cluster check, one per node check and vSphere node. */
  function Owed(i: Input, name: string): seq<Option<string>>
    requires i.nodes.Some?
  {
    if name in i.clusterChecks then [i.clusterError(name)]
    else if name in i.nodeChecks then Verdicts(i, name, VSphereNodes(i.nodes.value))
    else []
  }

  ghost predicate RoundCompleted(i: Input, c: Config<Event>, s: State<Event>) {
    i.nodes.Some? && c.script == ScriptOf(i) && Reachable(c, s) && s.main.Completed?
  }

  lemma PassedWait(i: Input, c: Config<Event>, s: State<Event>)
    requires RoundCompleted(i, c, s)
    ensures WaitIsLast(c.script) && Inv(c, s) && WaitBefore(c.script, s.pc)
  {
    RoundWaitsLast(i);
    ReachableInv(c, s);
    ScriptLayout(i, WaitIndex(i));
    assert c.script[WaitIndex(i)].Wait?;
  }

  /** Whatever the interleaving, a completed round has stored exactly the owed results. */
  lemma ResultsConserved(i: Input, c: Config<Event>, s: State<Event>, name: string)
    requires RoundCompleted(i, c, s) && DistinctNames(i)
    ensures multiset(Stored(Collected(s.log), name)) == multiset(Owed(i, name))
  {
    NamesApart(i);
    RoundPicks(i, c, s, ResultNamed(name));
    NodeResults(i, name, VSphereNodes(i.nodes.value));
    ClusterResults(i, name, |i.clusterChecks|);
    assert i.clusterChecks[..|i.clusterChecks|] == i.clusterChecks;
    CollectedIsResultsIn(s.log, name);
  }

  ghost predicate SamePermuted(i: Input, j: Input) {
    && i.nodes.Some? && j.nodes == i.nodes
    && multiset(i.clusterChecks) == multiset(j.clusterChecks) && j.nodeChecks == i.nodeChecks
    && (forall n :: i.clusterError(n) == j.clusterError(n)) && (forall n :: i.lookupError(n) == j.lookupError(n))
    && (forall k, n :: i.nodeError(k, n) == j.nodeError(k, n))
  }

  lemma {:induction false} SameVerdicts(i: Input, j: Input, check: string, nodes: seq<Node>)
    requires SamePermuted(i, j)
    ensures Verdicts(i, check, nodes) == Verdicts(j, check, nodes)
  {
    if nodes != [] { SameVerdicts(i, j, check, nodes[..|nodes| - 1]); }
  }

  /** Where the verdicts are the same in both, the results of two rounds depend neither on the schedule,
      nor on the size of the pool, nor on the order in which the map of cluster checks was ranged over. */
  lemma ScheduleDoesNotMatter(i: Input, c: Config<Event>, s: State<Event>, j: Input, d: Config<Event>,
                              t: State<Event>, name: string)
    requires RoundCompleted(i, c, s) && RoundCompleted(j, d, t)
    requires SamePermuted(i, j) && DistinctNames(i) && DistinctNames(j)
    ensures multiset(Stored(Collected(s.log), name)) == multiset(Stored(Collected(t.log), name))
  {
    ResultsConserved(i, c, s, name);
    ResultsConserved(j, d, t, name);
    assert name in i.clusterChecks <==> name in multiset(i.clusterChecks);
    assert name in j.clusterChecks <==> name in multiset(j.clusterChecks);
    SameVerdicts(i, j, name, VSphereNodes(i.nodes.value));
  }

  lemma {:induction false} VerdictsSize(i: Input, check: string, nodes: seq<Node>)
    ensures |Verdicts(i, check, nodes)| == |nodes|
    ensures forall v :: v in Verdicts(i, check, nodes) <==> exists n :: n in nodes && v == Verdict(i, check, n)
  {
    if nodes != [] {
      var init, last := nodes[..|nodes| - 1], nodes[|nodes| - 1];
      VerdictsSize(i, check, init);
      assert nodes == init + [last];
      forall v ensures v in Verdicts(i, check, nodes) <==> exists n :: n in nodes && v == Verdict(i, check, n) {
        if v in Verdicts(i, check, init) {
          var n :| n in init && v == Verdict(i, check, n);
          assert n in nodes;
        } else if v == Verdict(i, check, last) {
          assert last in nodes;
        }
      }
    }
  }

  lemma ResultCounts(i: Input, c: Config<Event>, s: State<Event>, name: string)
    requires RoundCompleted(i, c, s) && DistinctNames(i)
    ensures |Stored(Collected(s.log), name)| ==
      if name in i.clusterChecks then 1
      else if name in i.nodeChecks then |VSphereNodes(i.nodes.value)|
      else 0
  {
    ResultsConserved(i, c, s, name);
    VerdictsSize(i, name, VSphereNodes(i.nodes.value));
    assert |multiset(Stored(Collected(s.log), name))| == |Stored(Collected(s.log), name)|;
    assert |multiset(Owed(i, name))| == |Owed(i, name)|;
  }

  /** A node with this provider ID ends a check so: with the lookup's error if there is one, else with its own. */
  predicate EndsSo(i: Input, check: string, n: Node, e: Option<string>) {
    "vsphere://" <= n.providerID && e == if i.lookupError(n).Some? then i.lookupError(n) else i.nodeError(check, n)
  }

  /** The places of a list at which nodes end so. */
  function EndingSo(i: Input, check: string, nodes: seq<Node>, e: Option<string>): set<nat> {
    set k: nat | k < |nodes| && EndsSo(i, check, nodes[k], e)
  }

  lemma {:induction false} VerdictsAre(i: Input, check: string, nodes: seq<Node>, e: Option<string>)
    ensures multiset(Verdicts(i, check, VSphereNodes(nodes)))[e] == |EndingSo(i, check, nodes, e)|
  {
    if nodes != [] {
      var init, last := nodes[..|nodes| - 1], nodes[|nodes| - 1];
      assert nodes == init + [last];
      VerdictsAre(i, check, init, e);
      EndingSoAtLast(i, check, init, last, e);
      VerdictsOfLast(i, check, init, last, e);
    }
  }

  lemma EndingSoAtLast(i: Input, check: string, init: seq<Node>, last: Node, e: Option<string>)
    ensures |EndingSo(i, check, init + [last], e)|
         == |EndingSo(i, check, init, e)| + if EndsSo(i, check, last, e) then 1 else 0
  {
    var added: set<nat> := if EndsSo(i, check, last, e) then {|init|} else {};
    assert EndingSo(i, check, init + [last], e) == EndingSo(i, check, init, e) + added;
  }

  lemma VerdictsOfLast(i: Input, check: string, init: seq<Node>, last: Node, e: Option<string>)
    ensures multiset(Verdicts(i, check, VSphereNodes(init + [last])))[e]
         == multiset(Verdicts(i, check, VSphereNodes(init)))[e] + if EndsSo(i, check, last, e) then 1 else 0
  {
    VSphereNodesOfLast(init, last);
    if IsVSphereNode(last) { VerdictAdded(i, check, VSphereNodes(init), last, e); }
  }

  lemma VSphereNodesOfLast(init: seq<Node>, last: Node)
    ensures VSphereNodes(init + [last])
         == if IsVSphereNode(last) then VSphereNodes(init) + [last] else VSphereNodes(init)
  {
    assert (init + [last])[..|init|] == init;
  }

  lemma VerdictAdded(i: Input, check: string, nodes: seq<Node>, last: Node, e: Option<string>)
    ensures multiset(Verdicts(i, check, nodes + [last]))[e]
         == multiset(Verdicts(i, check, nodes))[e] + if Verdict(i, check, last) == e then 1 else 0
  {
    assert (nodes + [last])[..|nodes|] == nodes;
  }

  /** So in any interleaving a cluster check has stored its one result, and a node check each result as often as
      listed nodes with the prefix "vsphere://" end so. */
  lemma StoredResultsAre(i: Input, c: Config<Event>, s: State<Event>, name: string, e: Option<string>)
    requires RoundCompleted(i, c, s) && DistinctNames(i)
    ensures name in i.clusterChecks ==> Stored(Collected(s.log), name) == [i.clusterError(name)]
    ensures name in i.nodeChecks ==>
      multiset(Stored(Collected(s.log), name))[e] == |EndingSo(i, name, i.nodes.value, e)|
  {
    ResultsConserved(i, c, s, name);
    NamesApart(i);
    VerdictsAre(i, name, i.nodes.value, e);
    if name in i.clusterChecks { OnlyResult(Stored(Collected(s.log), name), i.clusterError(name)); }
  }

  lemma OnlyResult(stored: seq<Option<string>>, e: Option<string>)
    requires multiset(stored) == multiset([e])
    ensures stored == [e]
  {
    assert |stored| == |multiset(stored)| == 1;
    assert stored[0] in multiset(stored);
  }

  /** The overall error of Collect after a completed round: nil exactly when every cluster check
      passed, every VM of a vSphere node was found and every check of every such node passed. */
  ghost predicate AllPassed(i: Input)
    requires i.nodes.Some?
  {
    && (forall k :: k in i.clusterChecks ==> i.clusterError(k).None?)
    && (forall k, n :: k in i.nodeChecks && n in VSphereNodes(i.nodes.value) ==> Verdict(i, k, n).None?)
  }

  lemma RoundFailsExactlyWhenSomeCheckFails(i: Input, c: Config<Event>, s: State<Event>, order: seq<string>)
    requires RoundCompleted(i, c, s) && DistinctNames(i)
    requires forall n :: n in order <==> n in Collected(s.log)
    ensures AllFailures(Collected(s.log), order) == [] <==> AllPassed(i)
  {
    var m := Collected(s.log);
    NoFailuresAtAll(m, order);
    forall n, e ensures e in Stored(m, n) <==> e in Owed(i, n) {
      ResultsConserved(i, c, s, n);
      assert e in Stored(m, n) <==> e in multiset(Stored(m, n));
      assert e in Owed(i, n) <==> e in multiset(Owed(i, n));
    }
    if AllFailures(m, order) == [] {
      forall k | k in i.clusterChecks ensures i.clusterError(k).None? {
        assert i.clusterError(k) in Owed(i, k);
        assert i.clusterError(k) in Stored(m, k);
      }
      forall k, n | k in i.nodeChecks && n in VSphereNodes(i.nodes.value) ensures Verdict(i, k, n).None? {
        NodeCheckOwes(i, k, n);
        assert Verdict(i, k, n) in Stored(m, k);
      }
    } else if AllPassed(i) {
      var n, e :| n in order && e in Stored(m, n) && !e.None?;
      assert e in Owed(i, n);
      VerdictsSize(i, n, VSphereNodes(i.nodes.value));
      assert false;
    }
  }

  lemma NodeCheckOwes(i: Input, check: string, node: Node)
    requires i.nodes.Some? && DistinctNames(i)
    requires check in i.nodeChecks && node in VSphereNodes(i.nodes.value)
    ensures Verdict(i, check, node) in Owed(i, check)
  {
    NamesApart(i);
    VerdictsSize(i, check, VSphereNodes(i.nodes.value));
  }
}
