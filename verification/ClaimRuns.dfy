/** Rounds in which a chosen node is the first to call a claiming check. */
module ClaimRuns {
  import opened Options
  import opened ThreadPool
  import opened PoolTheorems
  import opened PoolSchedules
  import opened ResultCollection
  import opened Round
  import opened RoundTheorems
  import opened RoundProtocol
  import opened RoundCounts
  import opened ClaimingChecks
  import opened ClaimSchedules

  // ---------------------------------------------------------------- the tasks that are held

  /** The node is one of the first `a` found nodes with key `h`. */
  predicate IsHeld(i: Input, q: Claiming, h: string, a: nat, vs: seq<Node>, m: nat)
    requires m < |vs|
  {
    IsKeyed(i, q, h, vs[m]) && Rank(i, q, h, vs, m) < a
  }

  ghost function HeldTasks(i: Input, q: Claiming, h: string, a: nat, vs: seq<Node>, m: nat): seq<nat>
    requires m <= |vs|
  {
    if m == 0 then []
    else
      var earlier := HeldTasks(i, q, h, a, vs, m - 1);
      if IsHeld(i, q, h, a, vs, m - 1) then earlier + [FirstNode(i) + m - 1] else earlier
  }

  lemma {:induction false} HeldTasksAre(i: Input, q: Claiming, h: string, a: nat, vs: seq<Node>, m: nat, t: nat)
    requires m <= |vs|
    ensures t in HeldTasks(i, q, h, a, vs, m)
       <==> FirstNode(i) <= t < FirstNode(i) + m && IsHeld(i, q, h, a, vs, t - FirstNode(i))
  {
    if m > 0 { HeldTasksAre(i, q, h, a, vs, m - 1, t); }
  }

  lemma {:induction false} HeldTasksAreFew(i: Input, q: Claiming, h: string, a: nat, vs: seq<Node>, m: nat)
    requires m <= |vs|
    ensures var ts := HeldTasks(i, q, h, a, vs, m);
      Increasing(ts) && |ts| <= a && |ts| <= Rank(i, q, h, vs, m)
  {
    if m > 0 {
      HeldTasksAreFew(i, q, h, a, vs, m - 1);
      RankStep(i, q, h, vs, m - 1);
      if IsHeld(i, q, h, a, vs, m - 1) {
        var earlier, t := HeldTasks(i, q, h, a, vs, m - 1), FirstNode(i) + m - 1;
        forall u | u in earlier ensures u < t { HeldTasksAre(i, q, h, a, vs, m - 1, u); }
        IncreasingAppend(earlier, t);
      }
    }
  }

  /** The first node with key `g` that is not held. */
  function FirstFree(i: Input, q: Claiming, h: string, a: nat, vs: seq<Node>, m: nat, g: string): Option<Node>
    requires m <= |vs|
  {
    if m == 0 then None
    else
      var earlier := FirstFree(i, q, h, a, vs, m - 1, g);
      if earlier.Some? then earlier
      else if IsKeyed(i, q, g, vs[m - 1]) && !IsHeld(i, q, h, a, vs, m - 1) then Some(vs[m - 1])
      else None
  }

  /** For the key itself it is the node of rank `a`. */
  lemma {:induction false} FirstFreeOfKey(i: Input, q: Claiming, h: string, a: nat, vs: seq<Node>, m: nat)
    requires m <= |vs|
    ensures Rank(i, q, h, vs, m) <= |Keyed(i, q, h, vs)|
    ensures FirstFree(i, q, h, a, vs, m, h)
         == if Rank(i, q, h, vs, m) > a then Some(Keyed(i, q, h, vs)[a]) else None
  {
    KeyedPrefix(i, q, h, vs, m);
    if m > 0 {
      FirstFreeOfKey(i, q, h, a, vs, m - 1);
      RankStep(i, q, h, vs, m - 1);
      if IsKeyed(i, q, h, vs[m - 1]) { RankIsIndex(i, q, h, vs, m - 1); }
    }
  }

  /** For any other key it is the one that comes first when nothing is held. */
  lemma {:induction false} FirstFreeOfOther(i: Input, q: Claiming, h: string, a: nat, vs: seq<Node>, m: nat, g: string)
    requires m <= |vs| && g != h
    ensures FirstFree(i, q, h, a, vs, m, g) == FirstFree(i, q, h, 0, vs, m, g)
  {
    if m > 0 { FirstFreeOfOther(i, q, h, a, vs, m - 1, g); }
  }

  lemma {:induction false} SameFirstFree(i: Input, j: Input, q: Claiming, h: string, a: nat, vs: seq<Node>, m: nat,
                                         g: string)
    requires m <= |vs| && forall n :: j.lookupError(n) == i.lookupError(n)
    ensures FirstFree(j, q, h, a, vs, m, g) == FirstFree(i, q, h, a, vs, m, g)
  {
    if m > 0 {
      SameFirstFree(i, j, q, h, a, vs, m - 1, g);
      SameKeyed(i, j, q, h, vs[..m - 1]);
    }
  }

  // ---------------------------------------------------------------- the first caller in a log

  /** The node of the first call with key `g`. */
  ghost function FirstCaller(log: seq<Entry<Event>>, check: string, q: Claiming, g: string): Option<Node> {
    if log == [] then None
    else
      var earlier, e := FirstCaller(log[..|log| - 1], check, q, g), log[|log| - 1].event;
      if earlier.Some? then earlier else if IsCall(e, check, q, g) then Some(e.node) else None
  }

  lemma {:induction false} FirstCallerIsClaimant(log: seq<Entry<Event>>, check: string, q: Claiming, g: string)
    ensures FirstCaller(log, check, q, g) == Claimant(q, Visits(log, check), g)
  {
    if log != [] {
      FirstCallerIsClaimant(log[..|log| - 1], check, q, g);
      ClaimantOfLog(log, check, q, g);
    }
  }

  /** The first of two answers. */
  function Or(x: Option<Node>, y: Option<Node>): Option<Node> {
    if x.Some? then x else y
  }

  lemma {:induction false} FirstCallerConcat(x: seq<Entry<Event>>, y: seq<Entry<Event>>, check: string, q: Claiming,
                                             g: string)
    ensures FirstCaller(x + y, check, q, g) == Or(FirstCaller(x, check, q, g), FirstCaller(y, check, q, g))
  {
    if y == [] {
      assert x + y == x;
    } else {
      assert (x + y)[..|x + y| - 1] == x + y[..|y| - 1];
      FirstCallerConcat(x, y[..|y| - 1], check, q, g);
    }
  }

  lemma {:induction false} NothingCalled(log: seq<Entry<Event>>, check: string, q: Claiming, g: string)
    requires forall a :: 0 <= a < |log| ==> !IsCall(log[a].event, check, q, g)
    ensures FirstCaller(log, check, q, g) == None
  {
    if log != [] { NothingCalled(log[..|log| - 1], check, q, g); }
  }

  /** The task of a found node calls the check for that node, any other task for none. */
  lemma FirstCallerOfNode(i: Input, node: Node, t: nat, check: string, q: Claiming, g: string)
    requires check in i.nodeChecks
    ensures FirstCaller(Stamp(NodeBody(i, node), t), check, q, g) == if IsKeyed(i, q, g, node) then Some(node) else None
  {
    var body := NodeBody(i, node);
    var log := Stamp(body, t);
    FirstCallerIsClaimant(log, check, q, g);
    if FirstCaller(log, check, q, g).Some? {
      var a := ClaimantIsCalled(log, check, q, g);
      assert log[a].event == body[a] && body[a] in body;
      BodyEventNode(i, node, body[a]);
    } else if IsKeyed(i, q, g, node) {
      NoClaimantNoCall(log, check, q, g);
      BodyCallsCheck(i, node, check);
      CalledInBody(body, t, node, check, q, g);
    }
  }

  lemma CalledInBody(body: seq<Event>, t: nat, node: Node, check: string, q: Claiming, g: string)
    requires CheckNode(check, node) in body && q.key(node) == Some(g)
    ensures !Uncalled(Stamp(body, t), |Stamp(body, t)|, check, q, g)
  {
    var a :| 0 <= a < |body| && body[a] == CheckNode(check, node);
    assert IsCall(Stamp(body, t)[a].event, check, q, g);
  }

  lemma NoCheckNodeNoCall(events: seq<Event>, o: nat, check: string, q: Claiming, g: string)
    requires forall e :: e in events ==> !e.CheckNode?
    ensures FirstCaller(Stamp(events, o), check, q, g) == None
  {
    forall a | 0 <= a < |events| ensures !IsCall(Stamp(events, o)[a].event, check, q, g) { assert events[a] in events; }
    NothingCalled(Stamp(events, o), check, q, g);
  }

  /** A statement that is not a node's task calls nothing. */
  lemma OtherStatementsCallNothing(i: Input, o: nat, check: string, q: Claiming, g: string)
    requires i.nodes.Some? && o < |ScriptOf(i)| && (o < FirstNode(i) || WaitIndex(i) <= o)
    ensures FirstCaller(Stamp(OpEvents(ScriptOf(i)[o]), o), check, q, g) == None
  {
    ScriptLayout(i, o);
    var events := OpEvents(ScriptOf(i)[o]);
    forall e | e in events ensures !e.CheckNode? { StatementKinds(i, VSphereNodes(i.nodes.value), o, e); }
    NoCheckNodeNoCall(events, o, check, q, g);
  }

  // ---------------------------------------------------------------- the first answer in a delayed run

  /** The answer of a log is the first one of its parts. */
  ghost predicate Joins(f: seq<Entry<Event>> -> Option<Node>) {
    f([]).None? && forall x, y :: f(x + y) == Or(f(x), f(y))
  }

  /** `what` is the answer of every statement. */
  ghost predicate Answers(c: Config<Event>, f: seq<Entry<Event>> -> Option<Node>, what: nat -> Option<Node>) {
    forall o: nat :: o < |c.script| ==> f(Stamp(OpEvents(c.script[o]), o)) == what(o)
  }

  function Except(what: nat -> Option<Node>, hs: seq<nat>): nat -> Option<Node> {
    (o: nat) => if o in hs then None else what(o)
  }

  /** The first answer of the statements from `n` to `m`. */
  function FirstOf(what: nat -> Option<Node>, n: nat, m: nat): Option<Node>
    requires n <= m
  {
    if n == m then None else Or(FirstOf(what, n, m - 1), what(m - 1))
  }

  /** The first answer of some tasks. */
  function FirstIn(what: nat -> Option<Node>, hs: seq<nat>, k: nat): Option<Node>
    requires k <= |hs|
  {
    if k == 0 then None else Or(FirstIn(what, hs, k - 1), what(hs[k - 1]))
  }

  /** A statement with answer `r` after the ones from `n`. */
  ghost predicate AddsAfter(c: Config<Event>, n: nat, o: nat, hs: seq<nat>, f: seq<Entry<Event>> -> Option<Node>,
                            r: Option<Node>)
  {
    n <= o < |c.script| && f(Span(c.script, n, o, hs) + Part(c.script, o, hs)) == Or(f(Span(c.script, n, o, hs)), r)
  }

  lemma SpanStep(c: Config<Event>, n: nat, m: nat, hs: seq<nat>, f: seq<Entry<Event>> -> Option<Node>,
                 free: nat -> Option<Node>)
    requires n < m <= |c.script| && AddsAfter(c, n, m - 1, hs, f, free(m - 1))
    requires f(Span(c.script, n, m - 1, hs)) == FirstOf(free, n, m - 1)
    ensures f(Span(c.script, n, m, hs)) == FirstOf(free, n, m)
  {
  }

  lemma {:induction false} SpanAnswer(c: Config<Event>, n: nat, m: nat, hs: seq<nat>,
                                      f: seq<Entry<Event>> -> Option<Node>,
                                      free: nat -> Option<Node>)
    requires n <= m <= |c.script| && f([]).None?
    requires forall o: nat :: n <= o < |c.script| ==> AddsAfter(c, n, o, hs, f, free(o))
    ensures f(Span(c.script, n, m, hs)) == FirstOf(free, n, m)
    decreases m
  {
    if n < m {
      SpanAnswer(c, n, m - 1, hs, f, free);
      SpanStep(c, n, m, hs, f, free);
    }
  }

  lemma PartAdds(c: Config<Event>, n: nat, o: nat, hs: seq<nat>, f: seq<Entry<Event>> -> Option<Node>,
                 what: nat -> Option<Node>)
    requires n <= o < |c.script| && Joins(f) && Answers(c, f, what)
    ensures AddsAfter(c, n, o, hs, f, Except(what, hs)(o))
  {
  }

  ghost predicate AddsHeld(c: Config<Event>, hs: seq<nat>, k: nat, f: seq<Entry<Event>> -> Option<Node>,
                           r: Option<Node>)
  {
    && k < |hs|
    && f(Bodies(c, hs, k) + Stamp(Body(c, hs[k]), hs[k])) == Or(f(Bodies(c, hs, k)), r)
  }

  lemma TaskAdds(c: Config<Event>, hs: seq<nat>, k: nat, f: seq<Entry<Event>> -> Option<Node>,
                 what: nat -> Option<Node>)
    requires k < |hs| && hs[k] < |c.script| && c.script[hs[k]].Submit? && Joins(f) && Answers(c, f, what)
    ensures AddsHeld(c, hs, k, f, what(hs[k]))
  {
    assert OpEvents(c.script[hs[k]]) == Body(c, hs[k]);
  }

  lemma BodiesStep(c: Config<Event>, hs: seq<nat>, k: nat, f: seq<Entry<Event>> -> Option<Node>,
                   what: nat -> Option<Node>)
    requires k < |hs| && AddsHeld(c, hs, k, f, what(hs[k])) && f(Bodies(c, hs, k)) == FirstIn(what, hs, k)
    ensures f(Bodies(c, hs, k + 1)) == FirstIn(what, hs, k + 1)
  {
  }

  lemma {:induction false} BodiesAnswer(c: Config<Event>, hs: seq<nat>, k: nat, f: seq<Entry<Event>> -> Option<Node>,
                                        what: nat -> Option<Node>)
    requires k <= |hs| && f([]).None?
    requires forall j: nat {:trigger AddsHeld(c, hs, j, f, what(hs[j]))} :: j < |hs| ==>
      AddsHeld(c, hs, j, f, what(hs[j]))
    ensures f(Bodies(c, hs, k)) == FirstIn(what, hs, k)
  {
    if k > 0 {
      BodiesAnswer(c, hs, k - 1, f, what);
      BodiesStep(c, hs, k - 1, f, what);
    }
  }

  /** The log of the run in which the tasks `hs` come after all others. */
  ghost function DelayedLog(c: Config<Event>, hs: seq<nat>, wait: nat): seq<Entry<Event>>
    requires wait < |c.script|
  {
    Span(c.script, 0, wait, hs) + Bodies(c, hs, |hs|) + Span(c.script, wait + 1, |c.script|, [])
  }

  lemma DelayedAnswer(c: Config<Event>, hs: seq<nat>, wait: nat, f: seq<Entry<Event>> -> Option<Node>,
                      what: nat -> Option<Node>)
    requires wait < |c.script| && Joins(f) && Answers(c, f, what)
    requires forall j :: 0 <= j < |hs| ==> hs[j] < |c.script| && c.script[hs[j]].Submit?
    ensures f(DelayedLog(c, hs, wait))
         == Or(Or(FirstOf(Except(what, hs), 0, wait), FirstIn(what, hs, |hs|)),
               FirstOf(Except(what, []), wait + 1, |c.script|))
  {
    PartsAnswer(c, 0, wait, hs, f, what);
    HeldAnswer(c, hs, f, what);
    PartsAnswer(c, wait + 1, |c.script|, [], f, what);
    JoinThree(f, Span(c.script, 0, wait, hs), Bodies(c, hs, |hs|), Span(c.script, wait + 1, |c.script|, []));
  }

  lemma JoinThree(f: seq<Entry<Event>> -> Option<Node>, x: seq<Entry<Event>>, y: seq<Entry<Event>>,
                  z: seq<Entry<Event>>)
    requires Joins(f)
    ensures f(x + y + z) == Or(Or(f(x), f(y)), f(z))
  {
  }

  lemma PartsAnswer(c: Config<Event>, n: nat, m: nat, hs: seq<nat>, f: seq<Entry<Event>> -> Option<Node>,
                    what: nat -> Option<Node>)
    requires n <= m <= |c.script| && Joins(f) && Answers(c, f, what)
    ensures f(Span(c.script, n, m, hs)) == FirstOf(Except(what, hs), n, m)
  {
    forall o: nat | n <= o < |c.script| ensures AddsAfter(c, n, o, hs, f, Except(what, hs)(o)) {
      PartAdds(c, n, o, hs, f, what);
    }
    SpanAnswer(c, n, m, hs, f, Except(what, hs));
  }

  lemma HeldAnswer(c: Config<Event>, hs: seq<nat>, f: seq<Entry<Event>> -> Option<Node>, what: nat -> Option<Node>)
    requires Joins(f) && Answers(c, f, what)
    requires forall j :: 0 <= j < |hs| ==> hs[j] < |c.script| && c.script[hs[j]].Submit?
    ensures f(Bodies(c, hs, |hs|)) == FirstIn(what, hs, |hs|)
  {
    forall j: nat | j < |hs| ensures AddsHeld(c, hs, j, f, what(hs[j])) { TaskAdds(c, hs, j, f, what); }
    BodiesAnswer(c, hs, |hs|, f, what);
  }

  // ---------------------------------------------------------------- when the first nodes of a key are held

  lemma {:induction false} FirstOfNone(what: nat -> Option<Node>, n: nat, m: nat)
    requires n <= m && forall o: nat :: n <= o < m ==> what(o).None?
    ensures FirstOf(what, n, m).None?
  {
    if n < m { FirstOfNone(what, n, m - 1); }
  }

  lemma {:induction false} FirstInNone(what: nat -> Option<Node>, hs: seq<nat>, k: nat)
    requires k <= |hs| && forall j :: 0 <= j < |hs| ==> what(hs[j]).None?
    ensures FirstIn(what, hs, k).None?
  {
    if k > 0 { FirstInNone(what, hs, k - 1); }
  }

  /** The tasks of the nodes with key `g` answer with their node, all other statements with nothing. */
  ghost predicate NodesAnswer(i: Input, q: Claiming, vs: seq<Node>, g: string, what: nat -> Option<Node>) {
    && (forall o: nat :: o < FirstNode(i) || FirstNode(i) + |vs| <= o ==> what(o).None?)
    && forall k: nat :: k < |vs| ==> what(FirstNode(i) + k) == if IsKeyed(i, q, g, vs[k]) then Some(vs[k]) else None
  }

  /** Among the tasks that are not held the first answer is the first free node. */
  lemma {:induction false} FirstOfNodes(i: Input, q: Claiming, h: string, a: nat, vs: seq<Node>, m: nat, g: string,
                                        free: nat -> Option<Node>)
    requires m <= |vs| && forall o: nat :: o < FirstNode(i) ==> free(o).None?
    requires forall k: nat :: k < |vs| ==>
      free(FirstNode(i) + k) == if IsKeyed(i, q, g, vs[k]) && !IsHeld(i, q, h, a, vs, k) then Some(vs[k]) else None
    ensures FirstOf(free, 0, FirstNode(i) + m) == FirstFree(i, q, h, a, vs, m, g)
  {
    if m == 0 {
      FirstOfNone(free, 0, FirstNode(i));
    } else {
      FirstOfNodes(i, q, h, a, vs, m - 1, g, free);
      assert free(FirstNode(i) + (m - 1)) == free(FirstNode(i) + m - 1);
    }
  }

  lemma FreeAnswer(i: Input, q: Claiming, h: string, a: nat, vs: seq<Node>, g: string, what: nat -> Option<Node>)
    requires NodesAnswer(i, q, vs, g, what)
    ensures FirstOf(Except(what, HeldTasks(i, q, h, a, vs, |vs|)), 0, FirstNode(i) + |vs|)
         == FirstFree(i, q, h, a, vs, |vs|, g)
  {
    var hs := HeldTasks(i, q, h, a, vs, |vs|);
    var free := Except(what, hs);
    forall k: nat | k < |vs|
      ensures free(FirstNode(i) + k)
           == if IsKeyed(i, q, g, vs[k]) && !IsHeld(i, q, h, a, vs, k) then Some(vs[k]) else None
    {
      HeldTasksAre(i, q, h, a, vs, |vs|, FirstNode(i) + k);
    }
    FirstOfNodes(i, q, h, a, vs, |vs|, g, free);
  }

  /** When no node with a key is free, no held task answers for it either. */
  lemma NothingLeft(i: Input, q: Claiming, h: string, a: nat, vs: seq<Node>, g: string, what: nat -> Option<Node>)
    requires NodesAnswer(i, q, vs, g, what) && (a == 0 || a < |Keyed(i, q, h, vs)|)
    requires FirstFree(i, q, h, a, vs, |vs|, g).None?
    ensures var hs := HeldTasks(i, q, h, a, vs, |vs|); FirstIn(what, hs, |hs|).None?
  {
    var hs := HeldTasks(i, q, h, a, vs, |vs|);
    if g == h {
      assert vs[..|vs|] == vs;
      FirstFreeOfKey(i, q, h, a, vs, |vs|);
      HeldTasksAreFew(i, q, h, a, vs, |vs|);
    } else {
      forall j | 0 <= j < |hs| ensures what(hs[j]).None? { HeldAnswersNothingElse(i, q, h, a, vs, g, what, hs[j]); }
      FirstInNone(what, hs, |hs|);
    }
  }

  lemma HeldAnswersNothingElse(i: Input, q: Claiming, h: string, a: nat, vs: seq<Node>, g: string,
                               what: nat -> Option<Node>, t: nat)
    requires NodesAnswer(i, q, vs, g, what) && g != h && t in HeldTasks(i, q, h, a, vs, |vs|)
    ensures what(t).None?
  {
    HeldTasksAre(i, q, h, a, vs, |vs|, t);
    var k: nat := t - FirstNode(i);
    assert what(FirstNode(i) + k) == what(t);
  }

  /** The first answer of the statements before `wait`, those of `hs` coming last. */
  function AnswerOf(what: nat -> Option<Node>, hs: seq<nat>, wait: nat): Option<Node> {
    Or(FirstOf(Except(what, hs), 0, wait), FirstIn(what, hs, |hs|))
  }

  /** Every question has the answer in the log that it would have if the tasks `hs` came last. */
  ghost predicate AnsweredAsDelayed(c: Config<Event>, hs: seq<nat>, wait: nat, log: seq<Entry<Event>>) {
    forall f: seq<Entry<Event>> -> Option<Node>, what: nat -> Option<Node> :: Question(c, wait, f, what) ==>
      f(log) == AnswerOf(what, hs, wait)
  }

  ghost predicate Question(c: Config<Event>, wait: nat, f: seq<Entry<Event>> -> Option<Node>,
                           what: nat -> Option<Node>)
  {
    Joins(f) && Answers(c, f, what) && forall o: nat :: wait <= o ==> what(o).None?
  }

  lemma DelayedLogAnswers(c: Config<Event>, hs: seq<nat>, wait: nat)
    requires wait < |c.script|
    requires forall j :: 0 <= j < |hs| ==> hs[j] < |c.script| && c.script[hs[j]].Submit?
    ensures AnsweredAsDelayed(c, hs, wait, DelayedLog(c, hs, wait))
  {
    forall f: seq<Entry<Event>> -> Option<Node>, what: nat -> Option<Node> | Question(c, wait, f, what)
      ensures f(DelayedLog(c, hs, wait)) == AnswerOf(what, hs, wait)
    {
      DelayedAnswer(c, hs, wait, f, what);
      FirstOfNone(Except(what, []), wait + 1, |c.script|);
    }
  }

  // ---------------------------------------------------------------- the delayed round

  ghost function CallerIn(check: string, q: Claiming, g: string): seq<Entry<Event>> -> Option<Node> {
    (log: seq<Entry<Event>>) => FirstCaller(log, check, q, g)
  }

  function NodeAnswer(i: Input, q: Claiming, vs: seq<Node>, g: string, first: nat): nat -> Option<Node> {
    (o: nat) =>
      if first <= o < first + |vs| && IsKeyed(i, q, g, vs[o - first]) then Some(vs[o - first]) else None
  }

  /** When the first nodes of a key are held, the first free node answers. */
  ghost predicate FreeAnswers(i: Input, q: Claiming, h: string, a: nat, vs: seq<Node>, g: string, hs: seq<nat>) {
    AnswerOf(NodeAnswer(i, q, vs, g, FirstNode(i)), hs, FirstNode(i) + |vs|) == FirstFree(i, q, h, a, vs, |vs|, g)
  }

  lemma FirstFreeAnswers(i: Input, q: Claiming, h: string, a: nat, vs: seq<Node>, g: string)
    requires a == 0 || a < |Keyed(i, q, h, vs)|
    ensures FreeAnswers(i, q, h, a, vs, g, HeldTasks(i, q, h, a, vs, |vs|))
  {
    var what := NodeAnswer(i, q, vs, g, FirstNode(i));
    FreeAnswer(i, q, h, a, vs, g, what);
    if FirstFree(i, q, h, a, vs, |vs|, g).None? { NothingLeft(i, q, h, a, vs, g, what); }
  }

  lemma CallersJoin(check: string, q: Claiming, g: string)
    ensures Joins(CallerIn(check, q, g))
  {
    forall x, y ensures CallerIn(check, q, g)(x + y) == Or(CallerIn(check, q, g)(x), CallerIn(check, q, g)(y)) {
      FirstCallerConcat(x, y, check, q, g);
    }
  }

  /** Statement `o` calls for `r` first. */
  ghost predicate CallsFor(c: Config<Event>, o: nat, check: string, q: Claiming, g: string, r: Option<Node>) {
    o < |c.script| && FirstCaller(Stamp(OpEvents(c.script[o]), o), check, q, g) == r
  }

  lemma NodeCallsFor(i: Input, c: Config<Event>, node: Node, t: nat, check: string, q: Claiming, g: string)
    requires SubmitsNode(i, c, node, t) && check in i.nodeChecks
    ensures CallsFor(c, t, check, q, g, if IsKeyed(i, q, g, node) then Some(node) else None)
  {
    FirstCallerOfNode(i, node, t, check, q, g);
  }

  /** The statements that are no tasks of nodes call for nobody. */
  ghost predicate OthersCallNothing(i: Input, c: Config<Event>, wait: nat, check: string, q: Claiming, g: string) {
    forall o: nat :: o < |c.script| && (o < FirstNode(i) || wait <= o) ==> CallsFor(c, o, check, q, g, None)
  }

  lemma RoundCallsNothingElse(i: Input, c: Config<Event>, check: string, q: Claiming, g: string)
    requires i.nodes.Some? && c.script == ScriptOf(i)
    ensures OthersCallNothing(i, c, WaitIndex(i), check, q, g)
  {
    forall o: nat | o < |c.script| && (o < FirstNode(i) || WaitIndex(i) <= o)
      ensures CallsFor(c, o, check, q, g, None)
    {
      OtherStatementsCallNothing(i, o, check, q, g);
    }
  }

  lemma StatementCaller(i: Input, c: Config<Event>, vs: seq<Node>, check: string, q: Claiming, g: string, o: nat)
    requires check in i.nodeChecks && o < |c.script| && SubmitsNodes(i, c, vs)
    requires OthersCallNothing(i, c, FirstNode(i) + |vs|, check, q, g)
    ensures CallsFor(c, o, check, q, g, NodeAnswer(i, q, vs, g, FirstNode(i))(o))
  {
    if FirstNode(i) <= o < FirstNode(i) + |vs| {
      var m: nat := o - FirstNode(i);
      assert SubmitsNode(i, c, vs[m], FirstNode(i) + m);
      NodeCallsFor(i, c, vs[m], o, check, q, g);
    }
  }

  lemma RoundAnswers(i: Input, c: Config<Event>, vs: seq<Node>, check: string, q: Claiming, g: string)
    requires check in i.nodeChecks && SubmitsNodes(i, c, vs)
    requires OthersCallNothing(i, c, FirstNode(i) + |vs|, check, q, g)
    ensures Answers(c, CallerIn(check, q, g), NodeAnswer(i, q, vs, g, FirstNode(i)))
  {
    forall o: nat | o < |c.script|
      ensures CallerIn(check, q, g)(Stamp(OpEvents(c.script[o]), o)) == NodeAnswer(i, q, vs, g, FirstNode(i))(o)
    {
      StatementCaller(i, c, vs, check, q, g, o);
    }
  }

  lemma HeldTasksAreSubmitted(i: Input, c: Config<Event>, vs: seq<Node>, q: Claiming, h: string, a: nat)
    requires SubmitsNodes(i, c, vs)
    ensures var hs := HeldTasks(i, q, h, a, vs, |vs|);
      && Increasing(hs) && |hs| <= a
      && forall k :: 0 <= k < |hs| ==> hs[k] < FirstNode(i) + |vs| && hs[k] < |c.script| && c.script[hs[k]].Submit?
  {
    var hs := HeldTasks(i, q, h, a, vs, |vs|);
    HeldTasksAreFew(i, q, h, a, vs, |vs|);
    forall k | 0 <= k < |hs| ensures hs[k] < FirstNode(i) + |vs| && hs[k] < |c.script| && c.script[hs[k]].Submit? {
      assert hs[k] in hs;
      HeldTasksAre(i, q, h, a, vs, |vs|, hs[k]);
      assert SubmitsNode(i, c, vs[hs[k] - FirstNode(i)], FirstNode(i) + (hs[k] - FirstNode(i)));
    }
  }

  lemma HeldInRound(i: Input, c: Config<Event>, vs: seq<Node>, q: Claiming, h: string, a: nat, hs: seq<nat>)
    requires i.nodes.Some? && c.script == ScriptOf(i) && vs == VSphereNodes(i.nodes.value)
    requires hs == HeldTasks(i, q, h, a, vs, |vs|)
    ensures Increasing(hs) && |hs| <= a && WaitIndex(i) < |c.script|
    ensures forall k :: 0 <= k < |hs| ==> hs[k] < WaitIndex(i) && c.script[hs[k]].Submit?
  {
    RoundSubmitsNodes(i, c);
    HeldTasksAreSubmitted(i, c, vs, q, h, a);
    NodesAreSubmitted(i);
  }

  ghost predicate AllFreeAnswer(i: Input, q: Claiming, h: string, a: nat, vs: seq<Node>, hs: seq<nat>) {
    forall g :: FreeAnswers(i, q, h, a, vs, g, hs)
  }

  lemma ChooseHeld(i: Input, c: Config<Event>, vs: seq<Node>, q: Claiming, h: string, a: nat) returns (hs: seq<nat>)
    requires i.nodes.Some? && c.script == ScriptOf(i) && vs == VSphereNodes(i.nodes.value)
    requires (a == 0 || a < |Keyed(i, q, h, vs)|) && a < c.parallelism
    ensures CanBeHeld(c, hs, WaitIndex(i)) && AllFreeAnswer(i, q, h, a, vs, hs)
  {
    hs := HeldTasks(i, q, h, a, vs, |vs|);
    HeldInRound(i, c, vs, q, h, a, hs);
    forall g ensures FreeAnswers(i, q, h, a, vs, g, hs) {
      FirstFreeAnswers(i, q, h, a, vs, g);
    }
  }

  /** The script of a round: tasks and emitted events, Wait, and emitted events. */
  ghost predicate WaitsAt(c: Config<Event>, wait: nat) {
    && WaitIsLast(c.script) && wait < |c.script| && c.script[wait].Wait?
    && (forall o :: 0 <= o < wait ==> !c.script[o].Wait?) && (forall o :: wait < o < |c.script| ==> c.script[o].Emit?)
  }

  ghost predicate CanBeHeld(c: Config<Event>, hs: seq<nat>, wait: nat) {
    && Increasing(hs) && |hs| < c.parallelism
    && forall k :: 0 <= k < |hs| ==> hs[k] < wait && hs[k] < |c.script| && c.script[hs[k]].Submit?
  }

  lemma RoundWaitsAt(i: Input, c: Config<Event>)
    requires i.nodes.Some? && c.script == ScriptOf(i)
    ensures WaitsAt(c, WaitIndex(i))
  {
    RoundWaitsLast(i);
    NodesAreSubmitted(i);
  }

  lemma HeldRun(c: Config<Event>, hs: seq<nat>, wait: nat) returns (s: State<Event>)
    requires WaitsAt(c, wait) && CanBeHeld(c, hs, wait)
    ensures Reachable(c, s) && s.main.Completed? && AnsweredAsDelayed(c, hs, wait, s.log)
  {
    s := DelayedRun(c, hs, wait);
    DelayedLogAnswers(c, hs, wait);
  }

  lemma RoundJoins(i: Input, c: Config<Event>, vs: seq<Node>, check: string, q: Claiming, g: string)
    requires i.nodes.Some? && c.script == ScriptOf(i) && check in i.nodeChecks && vs == VSphereNodes(i.nodes.value)
    ensures Joins(CallerIn(check, q, g)) && Answers(c, CallerIn(check, q, g), NodeAnswer(i, q, vs, g, FirstNode(i)))
  {
    CallersJoin(check, q, g);
    RoundSubmitsNodes(i, c);
    RoundCallsNothingElse(i, c, check, q, g);
    RoundAnswers(i, c, vs, check, q, g);
  }

  /** What a delayed round claims for `g`. */
  ghost predicate ClaimedAsAnswered(i: Input, vs: seq<Node>, q: Claiming, check: string, g: string, hs: seq<nat>,
                                    log: seq<Entry<Event>>) {
    CallerIn(check, q, g)(log) == AnswerOf(NodeAnswer(i, q, vs, g, FirstNode(i)), hs, FirstNode(i) + |vs|)
  }

  lemma NothingAfterWait(i: Input, q: Claiming, vs: seq<Node>, g: string, what: nat -> Option<Node>)
    requires what == NodeAnswer(i, q, vs, g, FirstNode(i))
    ensures forall o: nat :: FirstNode(i) + |vs| <= o ==> what(o).None?
  {
  }

  lemma AnswerOfCaller(i: Input, vs: seq<Node>, q: Claiming, check: string, g: string, c: Config<Event>, hs: seq<nat>,
                       wait: nat,
                       log: seq<Entry<Event>>)
    requires AnsweredAsDelayed(c, hs, wait, log) && wait == FirstNode(i) + |vs|
    requires Question(c, wait, CallerIn(check, q, g), NodeAnswer(i, q, vs, g, FirstNode(i)))
    ensures ClaimedAsAnswered(i, vs, q, check, g, hs, log)
  {
  }

  lemma CallerInRound(i: Input, c: Config<Event>, vs: seq<Node>, q: Claiming, check: string, g: string, wait: nat)
    requires i.nodes.Some? && c.script == ScriptOf(i) && check in i.nodeChecks
    requires vs == VSphereNodes(i.nodes.value) && wait == FirstNode(i) + |vs|
    ensures Question(c, wait, CallerIn(check, q, g), NodeAnswer(i, q, vs, g, FirstNode(i)))
  {
    RoundJoins(i, c, vs, check, q, g);
    NothingAfterWait(i, q, vs, g, NodeAnswer(i, q, vs, g, FirstNode(i)));
  }

  lemma ClaimantIn(log: seq<Entry<Event>>, check: string, q: Claiming, g: string)
    ensures CallerIn(check, q, g)(log) == Claimant(q, Visits(log, check), g)
  {
    FirstCallerIsClaimant(log, check, q, g);
  }

  lemma RunHeld(i: Input, c: Config<Event>, hs: seq<nat>) returns (s: State<Event>)
    requires i.nodes.Some? && c.script == ScriptOf(i) && CanBeHeld(c, hs, WaitIndex(i))
    ensures RoundCompleted(i, c, s) && AnsweredAsDelayed(c, hs, WaitIndex(i), s.log)
  {
    RoundWaitsAt(i, c);
    s := HeldRun(c, hs, WaitIndex(i));
  }

  /** Every key is claimed by its first node, except `h`, which the node of rank `a` claims. */
  ghost predicate ClaimedByFree(i: Input, vs: seq<Node>, q: Claiming, h: string, a: nat, check: string,
                                log: seq<Entry<Event>>)
  {
    forall g :: Claimant(q, Visits(log, check), g) == FirstFree(i, q, h, a, vs, |vs|, g)
  }

  lemma FreeClaims(i: Input, vs: seq<Node>, q: Claiming, h: string, a: nat, check: string, hs: seq<nat>,
                   log: seq<Entry<Event>>)
    requires AllFreeAnswer(i, q, h, a, vs, hs) && forall g :: ClaimedAsAnswered(i, vs, q, check, g, hs, log)
    ensures ClaimedByFree(i, vs, q, h, a, check, log)
  {
    forall g ensures Claimant(q, Visits(log, check), g) == FirstFree(i, q, h, a, vs, |vs|, g) {
      assert FreeAnswers(i, q, h, a, vs, g, hs) && ClaimedAsAnswered(i, vs, q, check, g, hs, log);
      ClaimantIn(log, check, q, g);
    }
  }

  lemma HeldClaims(i: Input, c: Config<Event>, vs: seq<Node>, q: Claiming, check: string, hs: seq<nat>,
                   log: seq<Entry<Event>>)
    requires i.nodes.Some? && c.script == ScriptOf(i) && check in i.nodeChecks
    requires vs == VSphereNodes(i.nodes.value) && AnsweredAsDelayed(c, hs, WaitIndex(i), log)
    ensures forall g :: ClaimedAsAnswered(i, vs, q, check, g, hs, log)
  {
    forall g ensures ClaimedAsAnswered(i, vs, q, check, g, hs, log) {
      CallerInRound(i, c, vs, q, check, g, WaitIndex(i));
      AnswerOfCaller(i, vs, q, check, g, c, hs, WaitIndex(i), log);
    }
  }

  /** There is a completed round in which the node of rank `a` is the first to call with key `h`, and every other
      key is claimed by the node that comes first. */
  lemma HeldRound(i: Input, c: Config<Event>, vs: seq<Node>, q: Claiming, h: string, a: nat, check: string)
      returns (s: State<Event>)
    requires i.nodes.Some? && c.script == ScriptOf(i) && a < c.parallelism && check in i.nodeChecks
    requires vs == VSphereNodes(i.nodes.value) && (a == 0 || a < |Keyed(i, q, h, vs)|)
    ensures RoundCompleted(i, c, s) && ClaimedByFree(i, vs, q, h, a, check, s.log)
  {
    var hs := ChooseHeld(i, c, vs, q, h, a);
    s := RunHeld(i, c, hs);
    HeldClaims(i, c, vs, q, check, hs, s.log);
    FreeClaims(i, vs, q, h, a, check, hs, s.log);
  }
}
