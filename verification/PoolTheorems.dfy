/** What every interleaving of the check thread pool guarantees: accounting, no send on a closed
    channel, what a successful Wait means, deadlock freedom, termination, and agreement with the
    sequential execution of the same script. */
module PoolTheorems {
  import opened ThreadPool

  ghost predicate NoDuplicates(ids: seq<nat>) {
    forall t :: multiset(ids)[t] <= 1
  }

  // ---------------------------------------------------------------- accounting

  /** How often task `t` is somewhere between wg.Add and the end of its wg.Done. */
  ghost function Places<E>(s: State<E>, t: nat): nat {
    (if s.added && s.pc == t then 1 else 0) + multiset(s.queue)[t] + Running(s.workers)[t] + multiset(s.finished)[t]
  }

  /** wg.Add has been called for `t`. */
  ghost predicate Admitted<E>(c: Config<E>, s: State<E>, t: nat) {
    t < |c.script| && c.script[t].Submit? && (t < s.pc || (t == s.pc && s.added))
  }

  lemma PoolAccounting<E(!new)>(c: Config<E>, s: State<E>)
    requires WaitIsLast(c.script) && Reachable(c, s)
    ensures s.counter == (if s.added then 1 else 0) + |s.queue| + |Running(s.workers)|
    ensures forall t: nat :: Places(s, t) == if Admitted(c, s, t) then 1 else 0
    ensures NoDuplicates(s.started)
    ensures |s.queue| <= c.buffer
    ensures |Running(s.workers)| <= c.parallelism
  {
    ReachableInv(c, s);
    NobodyRunning(s.workers);
    forall t: nat ensures Places(s, t) == if Admitted(c, s, t) then 1 else 0 {
      OnePlace(c, s, t);
    }
    forall t: nat ensures multiset(s.started)[t] <= 1 {
      OnePlace(c, s, t);
      assert multiset(s.started)[t] == Running(s.workers)[t] + multiset(s.finished)[t];
    }
  }

  lemma ZeroMeansQuiet<E>(c: Config<E>, s: State<E>)
    requires Inv(c, s) && s.counter == 0
    ensures !s.added && s.queue == [] && Running(s.workers) == multiset{}
    ensures forall w :: w in s.workers ==> !w.Busy?
    ensures forall t: nat :: t < s.pc && c.script[t].Submit? ==>
      multiset(s.finished)[t] == 1 && s.Pos(t) == |Body(c, t)|
  {
    NobodyRunning(s.workers);
    forall t: nat | t < s.pc && c.script[t].Submit?
      ensures multiset(s.finished)[t] == 1 && s.Pos(t) == |Body(c, t)|
    {
      OnePlace(c, s, t);
      assert t in multiset(s.finished);
    }
  }

  /** No send meets a closed channel, and the channel is closed only once the counter is zero and
      every task of the script has finished: also when the context expired first. */
  lemma ChannelClosedOnlyWhenDone<E(!new)>(c: Config<E>, s: State<E>)
    requires WaitIsLast(c.script) && Reachable(c, s)
    ensures !s.panicked
    ensures s.DoneClosed() || s.WorkClosed() ==>
      && s.counter == 0 && s.queue == [] && Running(s.workers) == multiset{}
      && forall t: nat :: t < |c.script| && c.script[t].Submit? ==> multiset(s.finished)[t] == 1
    ensures s.WorkClosed() ==> s.DoneClosed()
  {
    ReachableInv(c, s);
    if s.DoneClosed() { ZeroMeansQuiet(c, s); }
  }

  /** Wait returned nil: every submitted task ran from its first event to its last, once. */
  lemma WaitNilMeansAllRan<E(!new)>(c: Config<E>, s: State<E>)
    requires WaitIsLast(c.script) && Reachable(c, s) && WaitBefore(c.script, s.pc)
    ensures forall t: nat :: t < |c.script| && c.script[t].Submit? ==>
      multiset(s.started)[t] == 1 && multiset(s.finished)[t] == 1 && Project(s.log, t) == c.script[t].body
  {
    ReachableInv(c, s);
    ZeroMeansQuiet(c, s);
    forall t: nat | t < |c.script| && c.script[t].Submit?
      ensures multiset(s.started)[t] == 1 && multiset(s.finished)[t] == 1 && Project(s.log, t) == c.script[t].body
    {
      assert t < s.pc;
      assert Project(s.log, t) == Contribution(c, s, t);
    }
  }

  // ---------------------------------------------------------------- deadlock freedom

  /** Nothing is left to do: the caller has returned, and after a Wait the channel is closed and
      every worker gone; without a Wait the workers stay parked on the open channel. */
  ghost predicate Final<E>(s: State<E>) {
    && !s.main.Active? && s.queue == []
    && (s.waiter.Unspawned? || s.waiter.Shut?)
    && (forall w :: w in s.workers ==> if s.waiter.Shut? then w.Exited? else w.Idle?)
  }

  ghost predicate Stuck<E>(c: Config<E>, s: State<E>) {
    forall a: Action :: Enabled(c, s, a) ==> a.Expire?
  }

  lemma WorkerCanMove<E>(c: Config<E>, s: State<E>, w: nat)
    requires Inv(c, s) && w < |s.workers|
    requires s.workers[w].Busy? || (s.workers[w].Idle? && (s.queue != [] || s.WorkClosed()))
    ensures !Stuck(c, s)
  {
    if s.workers[w].Busy? {
      assert Enabled(c, s, Work(w)) || Enabled(c, s, Done(w));
    } else {
      assert Enabled(c, s, Receive(w)) || Enabled(c, s, Exit(w));
    }
  }

  lemma MainCanMove<E>(c: Config<E>, s: State<E>)
    requires WaitIsLast(c.script) && Inv(c, s) && c.parallelism > 0 && s.main.Active?
    requires s.queue == [] && forall w :: w in s.workers ==> w.Idle?
    ensures !Stuck(c, s)
  {
    NobodyRunning(s.workers);
    if s.pc == |c.script| {
      assert Enabled(c, s, Return);
    } else {
      match c.script[s.pc]
      case Submit(_) =>
        SubmittingMeansOpen(c, s);
        assert s.workers[0] in s.workers;
        assert if s.added then Enabled(c, s, HandOff(0)) else Enabled(c, s, Add);
      case Emit(_) =>
        assert Enabled(c, s, EmitNext);
      case Wait =>
        assert Enabled(c, s, Spawn) || Enabled(c, s, WgWaitReturns) || Enabled(c, s, CloseDone) ||
          Enabled(c, s, SelectDone);
    }
  }

  lemma WaiterCanMove<E>(c: Config<E>, s: State<E>)
    requires Inv(c, s) && s.queue == [] && !s.main.Active?
    requires s.waiter.Blocked? || s.waiter.Released? || s.waiter.Signalled?
    requires forall w :: w in s.workers ==> w.Idle?
    ensures !Stuck(c, s)
  {
    NobodyRunning(s.workers);
    assert Enabled(c, s, WgWaitReturns) || Enabled(c, s, CloseDone) || Enabled(c, s, CloseWork);
  }

  /** The only states without a step are the final ones: no deadlock, not even with the submitter
      blocked on a full channel, and without the context ever expiring. */
  lemma DeadlockFree<E(!new)>(c: Config<E>, s: State<E>)
    requires WaitIsLast(c.script) && c.parallelism > 0 && Reachable(c, s)
    ensures Stuck(c, s) <==> Final(s)
  {
    ReachableInv(c, s);
    StuckExactlyWhenFinal(c, s);
  }

  /** When nothing can move any more, the channel is closed and all workers have exited exactly when the
      script has a Wait; without one the channel stays open and all workers are parked on it. */
  lemma WorkersExitExactlyWhenWaited<E(!new)>(c: Config<E>, s: State<E>)
    requires WaitIsLast(c.script) && c.parallelism > 0 && Reachable(c, s) && Stuck(c, s)
    ensures s.WorkClosed() <==> WaitBefore(c.script, |c.script|)
    ensures (forall w :: w in s.workers ==> w.Exited?) <==> WaitBefore(c.script, |c.script|)
    ensures (forall w :: w in s.workers ==> w.Idle?) <==> !WaitBefore(c.script, |c.script|)
  {
    DeadlockFree(c, s);
    ReachableInv(c, s);
    assert s.workers[0] in s.workers;
  }

  lemma StuckExactlyWhenFinal<E>(c: Config<E>, s: State<E>)
    requires WaitIsLast(c.script) && c.parallelism > 0 && Inv(c, s)
    ensures Stuck(c, s) <==> Final(s)
  {
    if Final(s) {
      assert forall w :: 0 <= w < |s.workers| ==> s.workers[w] in s.workers;
      return;
    }
    if w :| 0 <= w < |s.workers| && (s.workers[w].Busy? || (s.workers[w].Idle? && (s.queue != [] || s.WorkClosed()))) {
      WorkerCanMove(c, s, w);
    } else if s.WorkClosed() {
      ZeroMeansQuiet(c, s);
      assert forall w :: w in s.workers ==> w.Exited?;
      if s.main.Active? { MainAfterClose(c, s); }
    } else {
      assert s.workers[0] in s.workers;
      assert s.workers[0].Idle?;
      assert forall w :: w in s.workers ==> w.Idle?;
      if s.main.Active? { MainCanMove(c, s); } else { WaiterCanMove(c, s); }
    }
  }

  lemma MainAfterClose<E>(c: Config<E>, s: State<E>)
    requires WaitIsLast(c.script) && Inv(c, s) && s.WorkClosed() && s.main.Active?
    ensures !Stuck(c, s)
  {
    if s.pc < |c.script| {
      assert !c.script[s.pc].Submit?;
      assert Enabled(c, s, EmitNext) || Enabled(c, s, SelectDone);
    } else {
      assert Enabled(c, s, Return);
    }
  }

  // ---------------------------------------------------------------- termination

  ghost function OpWeight<E>(op: Op<E>): nat {
    if op.Submit? then 4 else 1
  }

  ghost function ScriptWeight<E>(script: seq<Op<E>>, pc: nat): nat
    decreases |script| - pc
  {
    if pc >= |script| then 0 else OpWeight(script[pc]) + ScriptWeight(script, pc + 1)
  }

  ghost function WorkersWeight(ws: seq<Worker>): nat {
    if ws == [] then 0
    else (match ws[0] case Busy(_) => 2 case Idle => 1 case Exited => 0) + WorkersWeight(ws[1..])
  }

  /** The events of the first `n` statements' tasks that are still to come. */
  ghost function EventsLeft<E>(c: Config<E>, s: State<E>, n: nat): nat
    requires n <= |c.script| && Positions(c, s)
  {
    if n == 0 then 0 else EventsLeft(c, s, n - 1) + (|Body(c, n - 1)| - s.Pos(n - 1))
  }

  ghost function WaiterWeight(w: Waiter): nat {
    match w case Unspawned => 4 case Blocked => 3 case Released => 2 case Signalled => 1 case Shut => 0
  }

  ghost function Measure<E>(c: Config<E>, s: State<E>): nat
    requires Shape(c, s) && Positions(c, s)
  {
    ScriptWeight(c.script, s.pc) - (if s.added then 1 else 0) + 2 * |s.queue| + WorkersWeight(s.workers)
    + EventsLeft(c, s, |c.script|) + WaiterWeight(s.waiter)
    + (if s.main.Active? then 1 else 0) + (if s.expired then 0 else 1)
  }

  lemma {:induction false} WorkersWeightUpdate(ws: seq<Worker>, i: nat, w: Worker)
    requires i < |ws|
    ensures WorkersWeight(ws[i := w]) - WorkersWeight([w]) == WorkersWeight(ws) - WorkersWeight([ws[i]])
  {
    if i == 0 {
      assert ws[i := w][1..] == ws[1..];
    } else {
      WorkersWeightUpdate(ws[1..], i - 1, w);
      assert ws[i := w][1..] == ws[1..][i - 1 := w];
    }
  }

  lemma {:induction false} EventsLeftStep<E>(c: Config<E>, s: State<E>, w: nat, n: nat)
    requires n <= |c.script| && Positions(c, s) && Enabled(c, s, Work(w)) && Positions(c, Next(c, s, Work(w)))
    ensures EventsLeft(c, Next(c, s, Work(w)), n) == EventsLeft(c, s, n) - if s.workers[w].task < n then 1 else 0
  {
    if n > 0 { EventsLeftStep(c, s, w, n - 1); }
  }

  lemma {:induction false} EventsLeftSame<E>(c: Config<E>, s: State<E>, s': State<E>, n: nat)
    requires n <= |c.script| && Positions(c, s) && Positions(c, s') && s.progress == s'.progress
    ensures EventsLeft(c, s', n) == EventsLeft(c, s, n)
  {
    if n > 0 { EventsLeftSame(c, s, s', n - 1); }
  }

  lemma MeasureDrops<E>(c: Config<E>, s: State<E>, a: Action)
    requires Shape(c, s) && Positions(c, s) && Enabled(c, s, a)
    requires Shape(c, Next(c, s, a)) && Positions(c, Next(c, s, a))
    requires a.Work? ==> s.workers[a.w].task < |c.script|
    ensures Measure(c, Next(c, s, a)) < Measure(c, s)
  {
    var s' := Next(c, s, a);
    if a.Work? {
      EventsLeftStep(c, s, a.w, |c.script|);
    } else {
      EventsLeftSame(c, s, s', |c.script|);
      if a.Receive? || a.HandOff? || a.Done? || a.Exit? { WorkersWeightUpdate(s.workers, a.w, s'.workers[a.w]); }
    }
  }

  /** Every step, whoever takes it, lowers the measure. */
  lemma StepLowersMeasure<E>(c: Config<E>, s: State<E>, a: Action)
    requires WaitIsLast(c.script) && Inv(c, s) && Enabled(c, s, a)
    ensures Inv(c, Next(c, s, a)) && Measure(c, Next(c, s, a)) < Measure(c, s)
  {
    InvStep(c, s, a);
    if a.Work? { BusyIsRunning(c, s, a.w); }
    MeasureDrops(c, s, a);
  }

  lemma {:induction false} RunsAreBounded<E>(c: Config<E>, s: State<E>, trace: seq<Action>, s': State<E>)
    requires WaitIsLast(c.script) && Inv(c, s) && Run(c, s, trace, s')
    ensures Inv(c, s') && |trace| + Measure(c, s') <= Measure(c, s)
    decreases |trace|
  {
    if trace != [] {
      StepLowersMeasure(c, s, trace[0]);
      RunsAreBounded(c, Next(c, s, trace[0]), trace[1..], s');
    }
  }

  lemma {:induction false} RunConcat<E>(c: Config<E>, s: State<E>, a: seq<Action>, m: State<E>, b: seq<Action>,
                                        s': State<E>)
    requires Run(c, s, a, m) && Run(c, m, b, s')
    ensures Run(c, s, a + b, s')
    decreases |a|
  {
    if a == [] {
      assert a + b == b;
    } else {
      RunConcat(c, Next(c, s, a[0]), a[1..], m, b, s');
      assert (a + b)[0] == a[0] && (a + b)[1..] == a[1..] + b;
    }
  }

  lemma RunSnoc<E>(c: Config<E>, s: State<E>, trace: seq<Action>, s': State<E>, a: Action)
    requires Run(c, s, trace, s') && Enabled(c, s', a)
    ensures Run(c, s, trace + [a], Next(c, s', a))
  {
    assert [a][1..] == [];
    assert Run(c, s', [a], Next(c, s', a)) by { assert Run(c, Next(c, s', a), [], Next(c, s', a)); }
    RunConcat(c, s, trace, s', [a], Next(c, s', a));
  }

  /** One more step. */
  lemma Reach<E(!new)>(c: Config<E>, s: State<E>, a: Action) returns (s': State<E>)
    requires Reachable(c, s) && Enabled(c, s, a)
    ensures s' == Next(c, s, a) && Reachable(c, s')
  {
    s' := Next(c, s, a);
    var trace :| Run(c, Init(c), trace, s);
    RunSnoc(c, Init(c), trace, s, a);
  }

  ghost predicate Expires(trace: seq<Action>) {
    Expire in trace
  }

  /** From every reachable state the pool can be run to its end, without the context expiring. */
  lemma {:induction false} CanFinish<E>(c: Config<E>, s: State<E>) returns (trace: seq<Action>, s': State<E>)
    requires WaitIsLast(c.script) && c.parallelism > 0 && Inv(c, s)
    ensures Run(c, s, trace, s') && !Expires(trace) && Final(s')
    decreases Measure(c, s)
  {
    StuckExactlyWhenFinal(c, s);
    if Final(s) {
      trace, s' := [], s;
    } else {
      var a: Action :| Enabled(c, s, a) && !a.Expire?;
      var next := TakeStep(c, s, a);
      var rest;
      rest, s' := CanFinish(c, next);
      trace := [a] + rest;
      assert trace[1..] == rest;
    }
  }

  lemma TakeStep<E>(c: Config<E>, s: State<E>, a: Action) returns (next: State<E>)
    requires WaitIsLast(c.script) && Inv(c, s) && Enabled(c, s, a)
    ensures next == Next(c, s, a) && Inv(c, next) && Measure(c, next) < Measure(c, s)
  {
    next := Next(c, s, a);
    StepLowersMeasure(c, s, a);
  }

  lemma StaysUnexpired<E>(c: Config<E>, s: State<E>, a: Action)
    requires Enabled(c, s, a) && !a.Expire? && !s.expired && !s.main.Expired?
    ensures !Next(c, s, a).expired && !Next(c, s, a).main.Expired?
  {
  }

  lemma {:induction false} UnexpiredRun<E>(c: Config<E>, s: State<E>, trace: seq<Action>, s': State<E>)
    requires Run(c, s, trace, s') && !Expires(trace) && !s.expired && !s.main.Expired?
    ensures !s'.expired && !s'.main.Expired?
    decreases |trace|
  {
    if trace != [] {
      StaysUnexpired(c, s, trace[0]);
      UnexpiredRun(c, Next(c, s, trace[0]), trace[1..], s');
    }
  }

  // ---------------------------------------------------------------- agreement with the sequential execution

  /** The log of running the script's statements one after the other. */
  ghost function Sequential<E>(script: seq<Op<E>>, n: nat): seq<Entry<E>>
    requires n <= |script|
  {
    if n == 0 then [] else Sequential(script, n - 1) + Stamp(OpEvents(script[n - 1]), n - 1)
  }

  ghost function OpEvents<E>(op: Op<E>): seq<E> {
    match op case Submit(body) => body case Emit(e) => [e] case Wait => []
  }

  ghost function Stamp<E>(events: seq<E>, o: nat): seq<Entry<E>> {
    seq(|events|, i requires 0 <= i < |events| => Entry(o, events[i]))
  }

  lemma {:induction false} ProjectConcat<E>(a: seq<Entry<E>>, b: seq<Entry<E>>, o: nat)
    ensures Project(a + b, o) == Project(a, o) + Project(b, o)
  {
    if b == [] {
      assert a + b == a;
    } else {
      var last := b[|b| - 1];
      assert (a + b)[..|a + b| - 1] == a + b[..|b| - 1];
      ProjectConcat(a, b[..|b| - 1], o);
    }
  }

  lemma {:induction false} ProjectStamp<E>(events: seq<E>, o: nat, k: nat)
    ensures Project(Stamp(events, o), k) == if k == o then events else []
  {
    if events != [] {
      var init, last := events[..|events| - 1], events[|events| - 1];
      assert Stamp(events, o)[..|events| - 1] == Stamp(init, o);
      assert events == init + [last];
      ProjectStamp(init, o, k);
    }
  }

  lemma EmptyUnit<T>(s: seq<T>)
    ensures s + [] == s && [] + s == s
  {
  }

  lemma {:induction false} ProjectSequential<E>(script: seq<Op<E>>, n: nat, o: nat)
    requires n <= |script|
    ensures Project(Sequential(script, n), o) == if o < n then OpEvents(script[o]) else []
  {
    if n > 0 {
      ProjectSequential(script, n - 1, o);
      ProjectLast(Sequential(script, n - 1), OpEvents(script[n - 1]), n - 1, o);
    }
  }

  /** The events of one more statement, when it has none so far. */
  lemma ProjectLast<E>(init: seq<Entry<E>>, events: seq<E>, n: nat, o: nat)
    requires o == n ==> Project(init, o) == []
    ensures Project(init + Stamp(events, n), o) == if o == n then events else Project(init, o)
  {
    ProjectConcat(init, Stamp(events, n), o);
    ProjectStamp(events, n, o);
    EmptyUnit(Project(init, o));
    EmptyUnit(events);
  }

  lemma {:induction false} CountInProjection<E>(log: seq<Entry<E>>, x: Entry<E>)
    ensures multiset(log)[x] == multiset(Project(log, x.origin))[x.event]
  {
    if log != [] {
      var init, last := log[..|log| - 1], log[|log| - 1];
      assert log == init + [last];
      CountInProjection(init, x);
    }
  }

  lemma SameProjectionsSameEntries<E>(a: seq<Entry<E>>, b: seq<Entry<E>>)
    requires forall o: nat :: Project(a, o) == Project(b, o)
    ensures multiset(a) == multiset(b)
  {
    forall x: Entry<E> ensures multiset(a)[x] == multiset(b)[x] {
      CountInProjection(a, x);
      CountInProjection(b, x);
    }
  }

  lemma {:induction false} NoForeignOrigin<E>(log: seq<Entry<E>>, o: nat)
    requires forall i :: 0 <= i < |log| ==> log[i].origin < o
    ensures Project(log, o) == []
  {
    if log != [] { NoForeignOrigin(log[..|log| - 1], o); }
  }

  lemma {:induction false} NoLaterOrigin<E>(log: seq<Entry<E>>, n: nat, o: nat)
    requires forall i :: 0 <= i < |log| ==> log[i].origin < n
    requires n <= o
    ensures Project(log, o) == []
  {
    NoForeignOrigin(log, o);
  }

  lemma QuietLog<E>(c: Config<E>, s: State<E>)
    requires Inv(c, s) && s.pc == |c.script| && s.counter == 0
    ensures multiset(s.log) == multiset(Sequential(c.script, |c.script|))
    ensures forall o: nat :: Project(s.log, o) == Project(Sequential(c.script, |c.script|), o)
  {
    ZeroMeansQuiet(c, s);
    forall o: nat ensures Project(s.log, o) == Project(Sequential(c.script, |c.script|), o) {
      ProjectSequential(c.script, |c.script|, o);
      if o < |c.script| {
        assert Project(s.log, o) == Contribution(c, s, o);
      } else {
        NoLaterOrigin(s.log, |c.script|, o);
      }
    }
    SameProjectionsSameEntries(s.log, Sequential(c.script, |c.script|));
  }

  /** A run that passed Wait and returned produced exactly the events of the sequential execution,
      each task's and the caller's own in the same order. */
  lemma CompletedRunIsPermutation<E(!new)>(c: Config<E>, s: State<E>)
    requires WaitIsLast(c.script) && Reachable(c, s) && s.main.Completed? && WaitBefore(c.script, s.pc)
    ensures multiset(s.log) == multiset(Sequential(c.script, |c.script|))
    ensures forall o: nat :: Project(s.log, o) == Project(Sequential(c.script, |c.script|), o)
  {
    ReachableInv(c, s);
    QuietLog(c, s);
  }

  /** ... and without a Wait the same holds once nothing can move any more. */
  lemma UnwaitedRunIsPermutation<E(!new)>(c: Config<E>, s: State<E>)
    requires WaitIsLast(c.script) && c.parallelism > 0 && Reachable(c, s) && Stuck(c, s)
    requires !WaitBefore(c.script, |c.script|)
    ensures s.main.Completed? && multiset(s.log) == multiset(Sequential(c.script, |c.script|))
    ensures s.waiter.Unspawned? && forall w :: w in s.workers ==> w.Idle?
  {
    ReachableInv(c, s);
    StuckExactlyWhenFinal(c, s);
    NobodyRunning(s.workers);
    QuietLog(c, s);
  }

  // ---------------------------------------------------------------- when the caller breaks the contract

  lemma LiftStep<E>(c: Config<E>, n: nat, s: State<E>, a: Action)
    requires n <= |c.script| && s.pc <= n && !s.main.Expired?
    requires Enabled(c.(script := c.script[..n]), s, a) && !a.Return? && !a.SelectExpired?
    requires a.Work? || a.Done? ==> s.workers[a.w].task < n
    ensures Enabled(c, s.(main := Active), a)
    ensures Next(c, s.(main := Active), a) == Next(c.(script := c.script[..n]), s, a).(main := Active)
  {
  }

  /** Executing a prefix of the script is executing the script, as long as nobody returns. */
  lemma {:induction false} LiftPrefix<E>(c: Config<E>, n: nat, s: State<E>, trace: seq<Action>, s': State<E>)
      returns (lifted: seq<Action>)
    requires n <= |c.script| && WaitIsLast(c.script[..n]) && Inv(c.(script := c.script[..n]), s)
    requires Run(c.(script := c.script[..n]), s, trace, s') && !Expires(trace) && !s.expired && !s.main.Expired?
    ensures Run(c, s.(main := Active), lifted, s'.(main := Active))
    decreases |trace|
  {
    if trace == [] {
      lifted := [];
    } else {
      var p, a := c.(script := c.script[..n]), trace[0];
      if a.Work? || a.Done? { BusyIsRunning(p, s, a.w); }
      StaysUnexpired(p, s, a);
      var next := TakeStep(p, s, a);
      var rest := LiftPrefix(c, n, next, trace[1..], s');
      if a.Return? {
        lifted := rest;
      } else {
        LiftStep(c, n, s, a);
        lifted := [a] + rest;
        assert lifted[1..] == rest;
      }
    }
  }

  ghost predicate CanPanic<E(!new)>(c: Config<E>) {
    exists s :: Reachable(c, s) && s.panicked
  }

  /** A submission after Wait is exactly what makes a send on the closed channel possible. */
  lemma PanicsExactlyWhenSubmittingAfterWait<E(!new)>(c: Config<E>)
    requires c.parallelism > 0
    requires forall i, j :: 0 <= i < j < |c.script| && c.script[i].Wait? ==> !c.script[j].Wait?
    ensures CanPanic(c) <==> !WaitIsLast(c.script)
  {
    if WaitIsLast(c.script) {
      forall s | Reachable(c, s) ensures !s.panicked { ReachableInv(c, s); }
    } else {
      var i, j :| 0 <= i < j < |c.script| && c.script[i].Wait? && (c.script[j].Submit? || c.script[j].Wait?);
      var n := FirstSubmitAfter(c.script, i, j);
      SubmitAfterWaitPanics(c, i, n);
    }
  }

  lemma {:induction false} FirstSubmitAfter<E>(script: seq<Op<E>>, i: nat, j: nat) returns (n: nat)
    requires i < j < |script| && script[j].Submit?
    ensures i < n <= j && script[n].Submit? && forall k :: i < k < n ==> !script[k].Submit?
    decreases j
  {
    n := j;
    if k :| i < k < j && script[k].Submit? { n := FirstSubmitAfter(script, i, k); }
  }

  /** The state in which the main goroutine is about to submit to the closed pool. */
  lemma ReachSubmitAfterWait<E(!new)>(c: Config<E>, i: nat, n: nat) returns (here: State<E>)
    requires c.parallelism > 0 && i < n < |c.script| && c.script[i].Wait?
    requires WaitIsLast(c.script[..n])
    ensures Reachable(c, here) && here.main.Active? && here.pc == n && here.WorkClosed() && !here.added
    ensures !here.panicked
  {
    var p := c.(script := c.script[..n]);
    InitInv(p);
    var trace, end := CanFinish(p, Init(p));
    UnexpiredRun(p, Init(p), trace, end);
    InvAlongRun(p, Init(p), trace, end);
    var lifted := LiftPrefix(c, n, Init(p), trace, end);
    here := end.(main := Active);
    assert Init(p).(main := Active) == Init(c);
    assert p.script[i].Wait? && WaitBefore(p.script, n);
  }

  lemma SubmitAfterWaitPanics<E(!new)>(c: Config<E>, i: nat, n: nat)
    requires c.parallelism > 0 && i < n < |c.script|
    requires c.script[i].Wait? && c.script[n].Submit?
    requires forall k :: i < k < n ==> !c.script[k].Submit?
    requires forall i, j :: 0 <= i < j < |c.script| && c.script[i].Wait? ==> !c.script[j].Wait?
    ensures CanPanic(c)
  {
    var here := ReachSubmitAfterWait(c, i, n);
    var s := Reach(c, here, Add);
    s := Reach(c, s, Send);
    assert s.panicked;
  }
}
