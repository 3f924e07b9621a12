/** The check thread pool (pkg/operator/pool.go) as a step relation.

    The main goroutine walks over a fixed script: it submits tasks, emits events of its own and
    waits for the pool. Workers, the goroutine spawned by Wait and the expiry of the context are
    interleaved with it in every possible way. A task is the sequence of events it produces, and
    every event is logged together with the script index it comes from, so that a run can be
    compared with the sequential execution of the script. */
module ThreadPool {

  /** One statement of the main goroutine. */
  datatype Op<E> =
    | Submit(body: seq<E>) // RunGoroutine of a task that produces these events
    | Emit(event: E)       // an event of the main goroutine itself
    | Wait

  datatype Config<E> = Config(parallelism: nat, buffer: nat, script: seq<Op<E>>)

  datatype Worker = Idle | Busy(task: nat) | Exited

  /** The goroutine of Wait: blocked in wg.Wait, then past it, then `done` closed, then `workCh` closed. */
  datatype Waiter = Unspawned | Blocked | Released | Signalled | Shut

  datatype Main = Active | Completed | Expired

  datatype Entry<E> = Entry(origin: nat, event: E)

  /** `added`: the main goroutine did wg.Add for script[pc] and has not sent it yet.
      `progress`: how many events of a task have happened (0 when absent). */
  datatype State<E> = State(
    pc: nat, added: bool, counter: int, queue: seq<nat>, workers: seq<Worker>,
    progress: map<nat, nat>, started: seq<nat>, finished: seq<nat>,
    waiter: Waiter, expired: bool, main: Main, log: seq<Entry<E>>, panicked: bool)
  {
    /** `done` is closed. */
    ghost predicate DoneClosed() { waiter.Signalled? || waiter.Shut? }

    /** `workCh` is closed. */
    ghost predicate WorkClosed() { waiter.Shut? }

    ghost function Pos(t: nat): nat { if t in progress then progress[t] else 0 }
  }

  datatype Action =
    | Add | Send | HandOff(w: nat) | EmitNext | Spawn | SelectDone | SelectExpired | Return
    | Receive(w: nat) | Work(w: nat) | Done(w: nat) | Exit(w: nat)
    | WgWaitReturns | CloseDone | CloseWork
    | Expire

  ghost function Init<E>(c: Config<E>): State<E> {
    State(0, false, 0, [], seq(c.parallelism, _ => Idle), map[], [], [], Unspawned, false, Active, [], false)
  }

  /** The main goroutine stands at a statement. */
  ghost predicate At<E>(c: Config<E>, s: State<E>) {
    s.main.Active? && s.pc < |c.script|
  }

  ghost predicate Enabled<E>(c: Config<E>, s: State<E>, a: Action) {
    && !s.panicked
    && match a
       case Add => At(c, s) && c.script[s.pc].Submit? && !s.added
       case Send => At(c, s) && s.added && (s.WorkClosed() || |s.queue| < c.buffer)
       case HandOff(w) =>
         && At(c, s) && s.added && !s.WorkClosed() && s.queue == []
         && w < |s.workers| && s.workers[w].Idle?
       case EmitNext => At(c, s) && c.script[s.pc].Emit?
       case Spawn => At(c, s) && c.script[s.pc].Wait? && s.waiter.Unspawned?
       case SelectDone => At(c, s) && c.script[s.pc].Wait? && s.DoneClosed()
       case SelectExpired => At(c, s) && c.script[s.pc].Wait? && !s.waiter.Unspawned? && s.expired
       case Return => s.main.Active? && s.pc == |c.script|
       case Receive(w) => w < |s.workers| && s.workers[w].Idle? && s.queue != []
       case Work(w) =>
         && w < |s.workers| && s.workers[w].Busy?
         && s.Pos(s.workers[w].task) < |Body(c, s.workers[w].task)|
       case Done(w) =>
         && w < |s.workers| && s.workers[w].Busy?
         && s.Pos(s.workers[w].task) >= |Body(c, s.workers[w].task)|
       case Exit(w) => w < |s.workers| && s.workers[w].Idle? && s.queue == [] && s.WorkClosed()
       case WgWaitReturns => s.waiter.Blocked? && s.counter == 0
       case CloseDone => s.waiter.Released?
       case CloseWork => s.waiter.Signalled?
       case Expire => !s.expired
  }

  ghost function Body<E>(c: Config<E>, t: nat): seq<E> {
    if t < |c.script| && c.script[t].Submit? then c.script[t].body else []
  }

  ghost function Next<E>(c: Config<E>, s: State<E>, a: Action): State<E>
    requires Enabled(c, s, a)
  {
    match a
    case Add => s.(added := true, counter := s.counter + 1)
    case Send =>
      if s.WorkClosed() then s.(panicked := true)
      else s.(added := false, queue := s.queue + [s.pc], pc := s.pc + 1)
    case HandOff(w) =>
      s.(added := false, workers := s.workers[w := Busy(s.pc)], started := s.started + [s.pc], pc := s.pc + 1)
    case EmitNext => s.(log := s.log + [Entry(s.pc, c.script[s.pc].event)], pc := s.pc + 1)
    case Spawn => s.(waiter := Blocked)
    case SelectDone => s.(pc := s.pc + 1)
    case SelectExpired => s.(main := Expired)
    case Return => s.(main := Completed)
    case Receive(w) =>
      s.(workers := s.workers[w := Busy(s.queue[0])], started := s.started + [s.queue[0]], queue := s.queue[1..])
    case Work(w) =>
      var t := s.workers[w].task;
      s.(log := s.log + [Entry(t, Body(c, t)[s.Pos(t)])], progress := s.progress[t := s.Pos(t) + 1])
    case Done(w) =>
      s.(workers := s.workers[w := Idle], finished := s.finished + [s.workers[w].task], counter := s.counter - 1)
    case Exit(w) => s.(workers := s.workers[w := Exited])
    case WgWaitReturns => s.(waiter := Released)
    case CloseDone => s.(waiter := Signalled)
    case CloseWork => s.(waiter := Shut)
    case Expire => s.(expired := true)
  }

  /** `trace` is an interleaving that leads from `s` to `s'`. */
  ghost predicate Run<E>(c: Config<E>, s: State<E>, trace: seq<Action>, s': State<E>)
    decreases |trace|
  {
    if trace == [] then s == s'
    else Enabled(c, s, trace[0]) && Run(c, Next(c, s, trace[0]), trace[1..], s')
  }

  ghost predicate Reachable<E(!new)>(c: Config<E>, s: State<E>) {
    exists trace :: Run(c, Init(c), trace, s)
  }

  /** The caller's side of the contract: Wait is the last use of the pool. */
  ghost predicate WaitIsLast<E>(script: seq<Op<E>>) {
    forall i, j :: 0 <= i < j < |script| && script[i].Wait? ==> !script[j].Submit? && !script[j].Wait?
  }

  ghost predicate WaitBefore<E>(script: seq<Op<E>>, n: nat) {
    exists i :: 0 <= i < n && i < |script| && script[i].Wait?
  }

  // ---------------------------------------------------------------- who holds which task

  ghost function Holds(w: Worker): multiset<nat> {
    if w.Busy? then multiset{w.task} else multiset{}
  }

  /** The tasks that were received and are not Done yet. */
  ghost function Running(ws: seq<Worker>): multiset<nat> {
    if ws == [] then multiset{} else Holds(ws[0]) + Running(ws[1..])
  }

  /** How many of the first `n` workers are running `t`. */
  ghost function CountRunning(ws: seq<Worker>, n: nat, t: nat): nat
    requires n <= |ws|
  {
    if n == 0 then 0 else CountRunning(ws, n - 1, t) + if ws[n - 1] == Busy(t) then 1 else 0
  }

  /** The tasks among the first `n` statements. */
  ghost function Submitted<E>(script: seq<Op<E>>, n: nat): multiset<nat>
    requires n <= |script|
  {
    if n == 0 then multiset{}
    else Submitted(script, n - 1) + if script[n - 1].Submit? then multiset{n - 1} else multiset{}
  }

  lemma {:induction false} SubmittedOnce<E>(script: seq<Op<E>>, n: nat, t: nat)
    requires n <= |script|
    ensures Submitted(script, n)[t] == if t < n && script[t].Submit? then 1 else 0
  {
    if n > 0 { SubmittedOnce(script, n - 1, t); }
  }

  lemma {:induction false} CountCons(w: Worker, ws: seq<Worker>, n: nat, t: nat)
    requires n <= |ws|
    ensures CountRunning([w] + ws, n + 1, t) == (if w == Busy(t) then 1 else 0) + CountRunning(ws, n, t)
  {
    if n > 0 { CountCons(w, ws, n - 1, t); }
  }

  lemma {:induction false} CountIsRunning(ws: seq<Worker>, t: nat)
    ensures Running(ws)[t] == CountRunning(ws, |ws|, t)
  {
    if ws != [] {
      CountIsRunning(ws[1..], t);
      CountCons(ws[0], ws[1..], |ws| - 1, t);
      assert ws == [ws[0]] + ws[1..];
      assert Running(ws)[t] == Holds(ws[0])[t] + Running(ws[1..])[t];
    }
  }

  lemma {:induction false} CountChange(a: seq<Worker>, b: seq<Worker>, i: nat, n: nat, t: nat)
    requires i < |a| == |b| && n <= |a| && forall k :: 0 <= k < |a| && k != i ==> a[k] == b[k]
    ensures CountRunning(b, n, t) + (if i < n && a[i] == Busy(t) then 1 else 0)
         == CountRunning(a, n, t) + (if i < n && b[i] == Busy(t) then 1 else 0)
    ensures i < n && a[i] == Busy(t) ==> CountRunning(a, n, t) > 0
  {
    if n > 0 { CountChange(a, b, i, n - 1, t); }
  }

  lemma HoldsCount(w: Worker, t: nat)
    ensures Holds(w)[t] == if w == Busy(t) then 1 else 0
  {
  }

  /** Replacing a worker's state replaces what it holds. */
  lemma RunningUpdate(ws: seq<Worker>, i: nat, w: Worker)
    requires i < |ws|
    ensures Running(ws[i := w]) + Holds(ws[i]) == Running(ws) + Holds(w)
    ensures Holds(ws[i]) <= Running(ws)
  {
    var before, after, out, into := Running(ws), Running(ws[i := w]), Holds(ws[i]), Holds(w);
    forall t: nat ensures after[t] + out[t] == before[t] + into[t] && out[t] <= before[t] {
      CountChange(ws, ws[i := w], i, |ws|, t);
      CountIsRunning(ws, t);
      CountIsRunning(ws[i := w], t);
      HoldsCount(ws[i], t);
      HoldsCount(w, t);
    }
  }

  lemma {:induction false} NobodyRunning(ws: seq<Worker>)
    ensures (forall w :: w in ws ==> !w.Busy?) <==> Running(ws) == multiset{}
    ensures |Running(ws)| <= |ws|
  {
    if ws != [] {
      NobodyRunning(ws[1..]);
      assert ws == [ws[0]] + ws[1..];
      if ws[0].Busy? { assert ws[0].task in Running(ws); }
    }
  }

  // ---------------------------------------------------------------- the log

  /** The events of one script statement, in the order in which they were logged. */
  ghost function Project<E>(log: seq<Entry<E>>, o: nat): seq<E> {
    if log == [] then []
    else
      var last := log[|log| - 1];
      Project(log[..|log| - 1], o) + if last.origin == o then [last.event] else []
  }

  lemma ProjectAppend<E>(log: seq<Entry<E>>, x: Entry<E>, o: nat)
    ensures Project(log + [x], o) == Project(log, o) + if x.origin == o then [x.event] else []
  {
    assert (log + [x])[..|log|] == log;
  }

  /** What statement `o` must have contributed to the log so far. */
  ghost function Contribution<E>(c: Config<E>, s: State<E>, o: nat): seq<E>
    requires o < |c.script| && s.Pos(o) <= |Body(c, o)|
  {
    match c.script[o]
    case Submit(body) => body[..s.Pos(o)]
    case Emit(e) => if o < s.pc then [e] else []
    case Wait => []
  }

  // ---------------------------------------------------------------- the invariant

  ghost predicate Shape<E>(c: Config<E>, s: State<E>) {
    && s.pc <= |c.script|
    && |s.workers| == c.parallelism
    && |s.queue| <= c.buffer
    && !s.panicked
    && (s.added ==> s.pc < |c.script| && c.script[s.pc].Submit? && s.main.Active?)
    && (s.main.Completed? ==> s.pc == |c.script|)
    && (s.main.Expired? ==> s.pc < |c.script| && c.script[s.pc].Wait? && !s.waiter.Unspawned?)
  }

  ghost predicate Accounting<E>(c: Config<E>, s: State<E>)
    requires s.pc <= |c.script|
  {
    && Submitted(c.script, s.pc) == multiset(s.queue) + Running(s.workers) + multiset(s.finished)
    && multiset(s.started) == Running(s.workers) + multiset(s.finished)
    && s.counter == (if s.added then 1 else 0) + |s.queue| + |Running(s.workers)|
  }

  ghost predicate Closing<E>(c: Config<E>, s: State<E>) {
    && (WaitBefore(c.script, s.pc) ==> s.DoneClosed())
    && (!s.waiter.Unspawned? ==> (s.pc < |c.script| && c.script[s.pc].Wait?) || WaitBefore(c.script, s.pc))
    && (s.waiter.Released? || s.DoneClosed() ==> s.counter == 0)
    && (forall w :: w in s.workers && w.Exited? ==> s.WorkClosed())
  }

  ghost predicate Positions<E>(c: Config<E>, s: State<E>) {
    && (forall t :: t in s.progress ==> t in s.started)
    && (forall t: nat :: t < |c.script| ==> s.Pos(t) <= |Body(c, t)|)
    && (forall t :: t in s.finished ==> s.Pos(t) == |Body(c, t)|)
  }

  ghost predicate Logged<E>(c: Config<E>, s: State<E>)
    requires Positions(c, s)
  {
    && (forall i :: 0 <= i < |s.log| ==> s.log[i].origin < s.pc)
    && (forall o: nat :: o < |c.script| ==> Project(s.log, o) == Contribution(c, s, o))
  }

  /** When the main goroutine emits an event, everything logged so far comes from statements before
      it: its own events are in order, and a task's events come after whatever was emitted before
      the task was submitted. What it emits after Wait comes after every event of every task. */
  ghost predicate Ordered<E>(script: seq<Op<E>>, log: seq<Entry<E>>) {
    && (forall i :: 0 <= i < |log| ==> log[i].origin < |script|)
    && (forall i, j :: 0 <= i < j < |log| && script[log[j].origin].Emit? ==> log[i].origin < log[j].origin)
    && (forall i, j :: 0 <= i < j < |log| && script[log[i].origin].Emit? && WaitBefore(script, log[i].origin)
          ==> !script[log[j].origin].Submit?)
  }

  ghost predicate Inv<E>(c: Config<E>, s: State<E>) {
    && Shape(c, s)
    && Accounting(c, s)
    && Closing(c, s)
    && Positions(c, s)
    && Logged(c, s)
    && Ordered(c.script, s.log)
  }

  lemma InitInv<E>(c: Config<E>)
    ensures Inv(c, Init(c))
  {
    NobodyRunning(Init(c).workers);
  }

  /** A task is in one place only: in the queue, at one worker, or finished. */
  lemma OnePlace<E>(c: Config<E>, s: State<E>, t: nat)
    requires Shape(c, s) && Accounting(c, s)
    ensures multiset(s.queue)[t] + Running(s.workers)[t] + multiset(s.finished)[t]
         == if t < s.pc && c.script[t].Submit? then 1 else 0
  {
    SubmittedOnce(c.script, s.pc, t);
  }

  lemma BusyIsRunning<E>(c: Config<E>, s: State<E>, w: nat)
    requires Shape(c, s) && Accounting(c, s)
    requires w < |s.workers| && s.workers[w].Busy?
    ensures var t := s.workers[w].task;
      t < s.pc && c.script[t].Submit? && t in s.started && t !in s.queue && t !in s.finished && s.counter > 0
  {
    var t := s.workers[w].task;
    RunningUpdate(s.workers, w, Idle);
    OnePlace(c, s, t);
    assert t in Running(s.workers);
    assert t in multiset(s.started) && t !in multiset(s.queue) && t !in multiset(s.finished);
  }

  /** While a task is being submitted nobody has seen Wait. */
  lemma SubmittingMeansOpen<E>(c: Config<E>, s: State<E>)
    requires WaitIsLast(c.script) && Shape(c, s) && Closing(c, s)
    requires s.pc < |c.script| && c.script[s.pc].Submit?
    ensures s.waiter.Unspawned?
  {
  }

  lemma ShapeStep<E>(c: Config<E>, s: State<E>, a: Action)
    requires WaitIsLast(c.script) && Shape(c, s) && Closing(c, s) && Enabled(c, s, a)
    ensures Shape(c, Next(c, s, a))
  {
    if a.Send? { SubmittingMeansOpen(c, s); }
  }

  lemma AccountingReceive<E>(c: Config<E>, s: State<E>, w: nat)
    requires Shape(c, s) && Accounting(c, s) && Enabled(c, s, Receive(w))
    ensures Accounting(c, Next(c, s, Receive(w)))
  {
    var t, rest := s.queue[0], s.queue[1..];
    var before, after := Running(s.workers), Running(s.workers[w := Busy(t)]);
    assert after == before + multiset{t} by { RunningUpdate(s.workers, w, Busy(t)); }
    assert multiset(s.queue) == multiset{t} + multiset(rest) by { assert s.queue == [t] + rest; }
    assert multiset(s.started + [t]) == multiset(s.started) + multiset{t};
  }

  lemma AccountingHandOff<E>(c: Config<E>, s: State<E>, w: nat)
    requires Shape(c, s) && Accounting(c, s) && Enabled(c, s, HandOff(w))
    ensures Accounting(c, Next(c, s, HandOff(w)))
  {
    var before, after := Running(s.workers), Running(s.workers[w := Busy(s.pc)]);
    assert after == before + multiset{s.pc} by { RunningUpdate(s.workers, w, Busy(s.pc)); }
    assert multiset(s.started + [s.pc]) == multiset(s.started) + multiset{s.pc};
  }

  lemma Regroup(a: multiset<nat>, b: multiset<nat>, d: multiset<nat>, x: multiset<nat>)
    ensures a + (b + x) + d == a + b + (d + x)
    ensures (b + x) + d == b + (d + x)
  {
  }

  lemma AccountingDone<E>(c: Config<E>, s: State<E>, w: nat)
    requires Shape(c, s) && Accounting(c, s) && Enabled(c, s, Done(w))
    ensures Accounting(c, Next(c, s, Done(w)))
  {
    var t := s.workers[w].task;
    var before, after := Running(s.workers), Running(s.workers[w := Idle]);
    assert before == after + multiset{t} by { RunningUpdate(s.workers, w, Idle); }
    assert |before| == |after| + 1;
    assert multiset(s.finished + [t]) == multiset(s.finished) + multiset{t};
    Regroup(multiset(s.queue), after, multiset(s.finished), multiset{t});
  }

  lemma AccountingExit<E>(c: Config<E>, s: State<E>, w: nat)
    requires Shape(c, s) && Accounting(c, s) && Enabled(c, s, Exit(w))
    ensures Accounting(c, Next(c, s, Exit(w)))
  {
    var before, after := Running(s.workers), Running(s.workers[w := Exited]);
    RunningUpdate(s.workers, w, Exited);
    assert after + multiset{} == after && before + multiset{} == before;
  }

  lemma AccountingSend<E>(c: Config<E>, s: State<E>)
    requires Shape(c, s) && Accounting(c, s) && Enabled(c, s, Send) && !s.WorkClosed()
    ensures Accounting(c, Next(c, s, Send))
  {
    assert multiset(s.queue + [s.pc]) == multiset(s.queue) + multiset{s.pc};
  }

  lemma SubmittedPass<E>(script: seq<Op<E>>, n: nat)
    requires n < |script| && !script[n].Submit?
    ensures Submitted(script, n + 1) == Submitted(script, n)
  {
  }

  lemma AccountingPass<E>(c: Config<E>, s: State<E>, a: Action)
    requires Shape(c, s) && Accounting(c, s) && Enabled(c, s, a) && (a.EmitNext? || a.SelectDone?)
    ensures Accounting(c, Next(c, s, a))
  {
    SubmittedPass(c.script, s.pc);
  }

  lemma AccountingStill<E>(c: Config<E>, s: State<E>, a: Action)
    requires Shape(c, s) && Accounting(c, s) && Enabled(c, s, a)
    requires !a.Receive? && !a.HandOff? && !a.Done? && !a.Exit? && !a.Send? && !a.EmitNext? && !a.SelectDone?
    ensures Accounting(c, Next(c, s, a)) && Next(c, s, a).pc == s.pc
  {
  }

  lemma AccountingStep<E>(c: Config<E>, s: State<E>, a: Action)
    requires Shape(c, s) && Accounting(c, s) && Enabled(c, s, a)
    requires a.Send? ==> !s.WorkClosed()
    ensures Next(c, s, a).pc <= |c.script| && Accounting(c, Next(c, s, a))
  {
    match a
    case Receive(w) => AccountingReceive(c, s, w);
    case HandOff(w) => AccountingHandOff(c, s, w);
    case Done(w) => AccountingDone(c, s, w);
    case Exit(w) => AccountingExit(c, s, w);
    case Send => AccountingSend(c, s);
    case EmitNext => AccountingPass(c, s, a);
    case SelectDone => AccountingPass(c, s, a);
    case _ => AccountingStill(c, s, a);
  }

  lemma ClosingStep<E>(c: Config<E>, s: State<E>, a: Action)
    requires WaitIsLast(c.script) && Shape(c, s) && Closing(c, s) && Enabled(c, s, a)
    requires a.Done? ==> s.counter > 0
    ensures Closing(c, Next(c, s, a))
  {
    if a.Add? || a.Send? || a.HandOff? { SubmittingMeansOpen(c, s); }
  }

  lemma PositionsStep<E>(c: Config<E>, s: State<E>, a: Action)
    requires Positions(c, s) && Enabled(c, s, a)
    requires a.Work? ==> s.workers[a.w].task in s.started && s.workers[a.w].task !in s.finished
    requires a.Done? ==> s.Pos(s.workers[a.w].task) <= |Body(c, s.workers[a.w].task)|
    ensures Positions(c, Next(c, s, a))
  {
  }

  lemma LoggedWork<E>(c: Config<E>, s: State<E>, w: nat)
    requires Positions(c, s) && Logged(c, s) && Enabled(c, s, Work(w))
    requires s.workers[w].task < s.pc <= |c.script| && c.script[s.workers[w].task].Submit?
    requires Positions(c, Next(c, s, Work(w)))
    ensures Logged(c, Next(c, s, Work(w)))
  {
    var s' := Next(c, s, Work(w));
    var t := s.workers[w].task;
    forall o: nat | o < |c.script| ensures Project(s'.log, o) == Contribution(c, s', o) {
      ProjectAppend(s.log, Entry(t, Body(c, t)[s.Pos(t)]), o);
      assert Project(s.log, o) == Contribution(c, s, o);
    }
  }

  lemma LoggedEmit<E>(c: Config<E>, s: State<E>)
    requires Positions(c, s) && Logged(c, s) && Enabled(c, s, EmitNext)
    ensures Positions(c, Next(c, s, EmitNext)) && Logged(c, Next(c, s, EmitNext))
  {
    var s' := Next(c, s, EmitNext);
    forall o: nat | o < |c.script| ensures Project(s'.log, o) == Contribution(c, s', o) {
      ProjectAppend(s.log, Entry(s.pc, c.script[s.pc].event), o);
      assert Project(s.log, o) == Contribution(c, s, o);
    }
  }

  lemma ContributionQuiet<E>(c: Config<E>, s: State<E>, s': State<E>, o: nat)
    requires o < |c.script| && s.Pos(o) <= |Body(c, o)| && s'.progress == s.progress
    requires s'.pc == s.pc || (s'.pc == s.pc + 1 && s.pc < |c.script| && !c.script[s.pc].Emit?)
    ensures Contribution(c, s', o) == Contribution(c, s, o)
  {
  }

  /** Passing a statement that is not an Emit logs nothing. */
  lemma LoggedQuiet<E>(c: Config<E>, s: State<E>, s': State<E>)
    requires Positions(c, s) && Logged(c, s) && Positions(c, s')
    requires s'.log == s.log && s'.progress == s.progress
    requires s'.pc == s.pc || (s'.pc == s.pc + 1 && s.pc < |c.script| && !c.script[s.pc].Emit?)
    ensures Logged(c, s')
  {
    forall o: nat | o < |c.script| ensures Project(s'.log, o) == Contribution(c, s', o) {
      ContributionQuiet(c, s, s', o);
      assert Project(s.log, o) == Contribution(c, s, o);
    }
  }

  lemma LoggedStep<E>(c: Config<E>, s: State<E>, a: Action)
    requires Shape(c, s) && Positions(c, s) && Logged(c, s) && Enabled(c, s, a)
    requires Positions(c, Next(c, s, a))
    requires a.Work? ==> s.workers[a.w].task < s.pc && c.script[s.workers[a.w].task].Submit?
    ensures Logged(c, Next(c, s, a))
  {
    match a
    case Work(w) => LoggedWork(c, s, w);
    case EmitNext => LoggedEmit(c, s);
    case _ => LoggedQuiet(c, s, Next(c, s, a));
  }

  lemma OrderedAppend<E>(script: seq<Op<E>>, log: seq<Entry<E>>, x: Entry<E>)
    requires Ordered(script, log) && x.origin < |script|
    requires script[x.origin].Emit? ==> forall i :: 0 <= i < |log| ==> log[i].origin < x.origin
    requires script[x.origin].Submit? ==> forall i :: 0 <= i < |log| ==> !WaitBefore(script, log[i].origin)
    ensures Ordered(script, log + [x])
  {
  }

  lemma OrderedStep<E>(c: Config<E>, s: State<E>, a: Action)
    requires Ordered(c.script, s.log) && Enabled(c, s, a)
    requires forall i :: 0 <= i < |s.log| ==> s.log[i].origin < s.pc
    requires a.Work? ==>
      s.workers[a.w].task < s.pc <= |c.script| && c.script[s.workers[a.w].task].Submit? && !WaitBefore(c.script, s.pc)
    ensures Ordered(c.script, Next(c, s, a).log)
  {
    if a.Work? || a.EmitNext? { OrderedAppend(c.script, s.log, Next(c, s, a).log[|s.log|]); }
  }

  lemma InvStep<E>(c: Config<E>, s: State<E>, a: Action)
    requires WaitIsLast(c.script) && Inv(c, s) && Enabled(c, s, a)
    ensures Inv(c, Next(c, s, a))
  {
    if a.Work? || a.Done? { BusyIsRunning(c, s, a.w); }
    if a.Send? { SubmittingMeansOpen(c, s); }
    ShapeStep(c, s, a);
    AccountingStep(c, s, a);
    ClosingStep(c, s, a);
    PositionsStep(c, s, a);
    LoggedStep(c, s, a);
    OrderedStep(c, s, a);
  }

  lemma {:induction false} InvAlongRun<E>(c: Config<E>, s: State<E>, trace: seq<Action>, s': State<E>)
    requires WaitIsLast(c.script) && Inv(c, s) && Run(c, s, trace, s')
    ensures Inv(c, s')
    decreases |trace|
  {
    if trace != [] {
      InvStep(c, s, trace[0]);
      InvAlongRun(c, Next(c, s, trace[0]), trace[1..], s');
    }
  }

  lemma ReachableInv<E(!new)>(c: Config<E>, s: State<E>)
    requires WaitIsLast(c.script) && Reachable(c, s)
    ensures Inv(c, s)
  {
    InitInv(c);
    var trace :| Run(c, Init(c), trace, s);
    InvAlongRun(c, Init(c), trace, s);
  }
}
