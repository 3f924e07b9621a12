/** Particular schedules of the check thread pool (pkg/operator/pool.go): tasks run one after the other while
    others are held back at a worker, and the order in which tasks are received. */
module PoolSchedules {
  import opened ThreadPool
  import opened PoolTheorems

  // ---------------------------------------------------------------- first in, first out

  ghost predicate Increasing(ts: seq<nat>) {
    forall i, j :: 0 <= i < j < |ts| ==> ts[i] < ts[j]
  }

  /** Tasks are received in the order in which they were submitted, and queued behind those. */
  ghost predicate Fifo<E>(s: State<E>) {
    Increasing(s.started + s.queue) && forall t :: t in s.started + s.queue ==> t < s.pc
  }

  lemma IncreasingAppend(ts: seq<nat>, t: nat)
    requires Increasing(ts) && forall u :: u in ts ==> u < t
    ensures Increasing(ts + [t])
  {
    assert forall k :: 0 <= k < |ts| ==> ts[k] in ts;
  }

  lemma FifoStep<E>(c: Config<E>, s: State<E>, a: Action)
    requires Fifo(s) && Enabled(c, s, a)
    ensures Fifo(Next(c, s, a))
  {
    var s', order := Next(c, s, a), s.started + s.queue;
    if a.HandOff? || (a.Send? && !s.WorkClosed()) {
      IncreasingAppend(order, s.pc);
      assert s'.started + s'.queue == order + [s.pc];
    } else if a.Receive? {
      assert s'.started + s'.queue == order;
    }
  }

  /** With one worker, the task it runs is the one received last. */
  ghost predicate LastReceived<E>(s: State<E>) {
    |s.workers| == 1 && s.workers[0].Busy? ==> s.started != [] && s.started[|s.started| - 1] == s.workers[0].task
  }

  lemma LastReceivedStep<E>(c: Config<E>, s: State<E>, a: Action)
    requires LastReceived(s) && Enabled(c, s, a)
    ensures LastReceived(Next(c, s, a))
  {
  }

  lemma {:induction false} FifoAlongRun<E>(c: Config<E>, s: State<E>, trace: seq<Action>, s': State<E>)
    requires Fifo(s) && LastReceived(s) && Run(c, s, trace, s')
    ensures Fifo(s') && LastReceived(s')
    decreases |trace|
  {
    if trace != [] {
      FifoStep(c, s, trace[0]);
      LastReceivedStep(c, s, trace[0]);
      FifoAlongRun(c, Next(c, s, trace[0]), trace[1..], s');
    }
  }

  lemma ReachableFifo<E(!new)>(c: Config<E>, s: State<E>)
    requires Reachable(c, s)
    ensures Fifo(s) && LastReceived(s)
  {
    var trace :| Run(c, Init(c), trace, s);
    FifoAlongRun(c, Init(c), trace, s);
  }

  /** A task submitted before a received one has been received. */
  lemma EarlierIsReceived<E>(c: Config<E>, s: State<E>, t: nat, u: nat)
    requires Inv(c, s) && Fifo(s)
    requires u < t && t in s.started && u < s.pc && c.script[u].Submit?
    ensures u in s.started && u !in s.queue
  {
    OnePlace(c, s, u);
    assert u in multiset(s.started) || u in multiset(s.queue);
    if u in s.queue { QueuedIsLater(s, t, u); }
  }

  lemma QueuedIsLater<E>(s: State<E>, t: nat, u: nat)
    requires Fifo(s) && t in s.started && u in s.queue
    ensures t < u
  {
    var i :| 0 <= i < |s.started| && s.started[i] == t;
    var j :| 0 <= j < |s.queue| && s.queue[j] == u;
    assert (s.started + s.queue)[i] == t && (s.started + s.queue)[|s.started| + j] == u;
  }

  // ---------------------------------------------------------------- one step of a schedule

  /** The main goroutine stands before statement `n`, and neither Wait nor the expiry has happened. */
  ghost predicate Steady<E(!new)>(c: Config<E>, s: State<E>, n: nat) {
    && WaitIsLast(c.script) && Reachable(c, s)
    && s.main.Active? && s.pc == n && !s.added && s.waiter.Unspawned? && !s.expired && !s.panicked
    && |s.workers| == c.parallelism
  }

  lemma FreshTask<E(!new)>(c: Config<E>, s: State<E>, n: nat)
    requires Steady(c, s, n)
    ensures s.Pos(n) == 0
  {
    ReachableInv(c, s);
    OnePlace(c, s, n);
    assert multiset(s.started)[n] == 0;
  }

  /** Worker `w` receives the next task. */
  lemma TakeTask<E(!new)>(c: Config<E>, s: State<E>, n: nat, w: nat) returns (s': State<E>)
    requires Steady(c, s, n) && s.queue == [] && n < |c.script| && c.script[n].Submit?
    requires w < |s.workers| && s.workers[w].Idle?
    ensures Steady(c, s', n + 1) && s'.queue == [] && s'.workers == s.workers[w := Busy(n)]
    ensures s'.progress == s.progress && s'.log == s.log && s'.Pos(n) == 0
  {
    FreshTask(c, s, n);
    s' := Reach(c, s, Add);
    s' := Reach(c, s', HandOff(w));
  }

  /** The next task is left in the queue. */
  lemma QueueTask<E(!new)>(c: Config<E>, s: State<E>, n: nat) returns (s': State<E>)
    requires Steady(c, s, n) && n < |c.script| && c.script[n].Submit? && |s.queue| < c.buffer
    ensures Steady(c, s', n + 1) && |s'.queue| == |s.queue| + 1 && s'.workers == s.workers && s'.progress == s.progress
  {
    s' := Reach(c, s, Add);
    s' := Reach(c, s', Send);
  }

  lemma {:induction false} QueueTasks<E(!new)>(c: Config<E>, s: State<E>, n: nat, m: nat) returns (s': State<E>)
    requires Steady(c, s, n) && n <= m <= |c.script| && forall o :: n <= o < m ==> c.script[o].Submit?
    requires |s.queue| + (m - n) <= c.buffer
    ensures Steady(c, s', m) && s'.workers == s.workers && s'.progress == s.progress
    decreases m - n
  {
    s' := s;
    if n < m {
      s' := QueueTask(c, s, n);
      s' := QueueTasks(c, s', n + 1, m);
    }
  }

  lemma StampSnoc<E>(body: seq<E>, p: nat, k: nat, t: nat)
    requires p <= k < |body|
    ensures Stamp(body[p..k + 1], t) == Stamp(body[p..k], t) + [Entry(t, body[k])]
  {
  }

  /** Worker `w` goes on to position `k` of its task. */
  lemma {:induction false} WorkOn<E(!new)>(c: Config<E>, s: State<E>, n: nat, w: nat, k: nat) returns (s': State<E>)
    requires Steady(c, s, n) && w < |s.workers| && s.workers[w].Busy?
    requires s.Pos(s.workers[w].task) <= k <= |Body(c, s.workers[w].task)|
    ensures Steady(c, s', n) && s'.queue == s.queue && s'.workers == s.workers
    ensures var t := s.workers[w].task;
      && s'.Pos(t) == k && (forall u: nat :: u != t ==> s'.Pos(u) == s.Pos(u))
      && s'.log == s.log + Stamp(Body(c, t)[s.Pos(t)..k], t)
    decreases k
  {
    var t := s.workers[w].task;
    var p, body := s.Pos(t), Body(c, t);
    if p == k {
      s' := s;
      assert Stamp(body[p..k], t) == [];
    } else {
      var before := WorkOn(c, s, n, w, k - 1);
      s' := Reach(c, before, Work(w));
      StampSnoc(body, p, k - 1, t);
      assert s'.log == s.log + (Stamp(body[p..k - 1], t) + [Entry(t, body[k - 1])]);
    }
  }

  lemma LeaveTask<E(!new)>(c: Config<E>, s: State<E>, n: nat, w: nat) returns (s': State<E>)
    requires Steady(c, s, n) && w < |s.workers| && s.workers[w].Busy?
    requires s.Pos(s.workers[w].task) == |Body(c, s.workers[w].task)|
    ensures Steady(c, s', n) && s'.queue == s.queue && s'.workers == s.workers[w := Idle]
    ensures s'.progress == s.progress && s'.log == s.log
  {
    s' := Reach(c, s, Done(w));
  }

  /** An idle worker runs the next task from its beginning to its end. */
  lemma RunTask<E(!new)>(c: Config<E>, s: State<E>, n: nat, w: nat) returns (s': State<E>)
    requires Steady(c, s, n) && s.queue == [] && n < |c.script| && c.script[n].Submit?
    requires w < |s.workers| && s.workers[w].Idle?
    ensures Steady(c, s', n + 1) && s'.queue == [] && s'.workers == s.workers
    ensures (forall u: nat :: u != n ==> s'.Pos(u) == s.Pos(u)) && s'.log == s.log + Stamp(OpEvents(c.script[n]), n)
  {
    var body := Body(c, n);
    var taken := TakeTask(c, s, n, w);
    var done := WorkOn(c, taken, n + 1, w, |body|);
    s' := LeaveTask(c, done, n + 1, w);
    forall u: nat | u != n ensures s'.Pos(u) == s.Pos(u) { assert done.Pos(u) == taken.Pos(u); }
    assert body[0..] == body;
    assert s.workers[w := Busy(n)][w := Idle] == s.workers;
  }

  // ---------------------------------------------------------------- holding tasks back

  /** The first `r` of the tasks `hs` are held, each at a worker of its own; all other workers are idle. */
  ghost predicate Holding<E>(s: State<E>, hs: seq<nat>, r: nat) {
    && r <= |hs| <= |s.workers|
    && (forall k :: 0 <= k < r ==> s.workers[k] == Busy(hs[k]))
    && (forall k :: r <= k < |s.workers| ==> s.workers[k].Idle?)
  }

  /** `r` of the tasks come before statement `n`. */
  ghost predicate Before(hs: seq<nat>, r: nat, n: nat) {
    r <= |hs| && (forall k :: 0 <= k < r ==> hs[k] < n) && (forall k :: r <= k < |hs| ==> n <= hs[k])
  }

  /** The events of the statements from `n` to `m` except `hs`, one statement after the other. */
  ghost function Span<E>(script: seq<Op<E>>, n: nat, m: nat, hs: seq<nat>): seq<Entry<E>>
    requires n <= m <= |script|
  {
    if n == m then [] else Span(script, n, m - 1, hs) + Part(script, m - 1, hs)
  }

  ghost function Part<E>(script: seq<Op<E>>, o: nat, hs: seq<nat>): seq<Entry<E>>
    requires o < |script|
  {
    if o in hs then [] else Stamp(OpEvents(script[o]), o)
  }

  lemma Associate<T>(a: seq<T>, b: seq<T>, d: seq<T>)
    ensures a + b + d == a + (b + d)
  {
  }

  lemma EmitOne<E(!new)>(c: Config<E>, s: State<E>, n: nat) returns (s': State<E>)
    requires Steady(c, s, n) && n < |c.script| && c.script[n].Emit?
    ensures Steady(c, s', n + 1) && s'.queue == s.queue && s'.workers == s.workers && s'.progress == s.progress
    ensures s'.log == s.log + Stamp(OpEvents(c.script[n]), n)
  {
    s' := Reach(c, s, EmitNext);
  }

  lemma AdvanceOne<E(!new)>(c: Config<E>, s: State<E>, n: nat, hs: seq<nat>, r: nat) returns (s': State<E>, r': nat)
    requires Steady(c, s, n) && s.queue == [] && n < |c.script| && !c.script[n].Wait?
    requires Increasing(hs) && |hs| < |s.workers| && Holding(s, hs, r) && Before(hs, r, n)
    requires n in hs ==> c.script[n].Submit?
    ensures Steady(c, s', n + 1) && s'.queue == [] && Holding(s', hs, r') && Before(hs, r', n + 1)
    ensures forall u: nat :: u != n ==> s'.Pos(u) == s.Pos(u)
    ensures n in hs ==> s'.Pos(n) == 0
    ensures s'.log == s.log + Part(c.script, n, hs)
  {
    if n in hs {
      assert r < |hs| && hs[r] == n;
      s' := TakeTask(c, s, n, r);
      r' := r + 1;
    } else {
      r' := r;
      if c.script[n].Submit? { s' := RunTask(c, s, n, |hs|); } else { s' := EmitOne(c, s, n); }
    }
  }

  /** From statement `n` to statement `m`: tasks in `hs` are received and left where they are, all other
      statements are executed completely, one after the other. */
  lemma {:induction false} Advance<E(!new)>(c: Config<E>, s: State<E>, n: nat, m: nat, hs: seq<nat>, r: nat)
      returns (s': State<E>, r': nat)
    requires Steady(c, s, n) && s.queue == [] && n <= m <= |c.script| && forall o :: n <= o < m ==> !c.script[o].Wait?
    requires Increasing(hs) && |hs| < |s.workers| && Holding(s, hs, r) && Before(hs, r, n)
    requires forall o :: n <= o < m && o in hs ==> c.script[o].Submit?
    ensures Steady(c, s', m) && s'.queue == [] && Holding(s', hs, r') && Before(hs, r', m)
    ensures forall u: nat :: u < n ==> s'.Pos(u) == s.Pos(u)
    ensures forall u: nat :: n <= u < m && u in hs ==> s'.Pos(u) == 0
    ensures s'.log == s.log + Span(c.script, n, m, hs)
    decreases m
  {
    s', r' := s, r;
    if n < m {
      var before, k := Advance(c, s, n, m - 1, hs, r);
      s', r' := AdvanceOne(c, before, m - 1, hs, k);
      Associate(s.log, Span(c.script, n, m - 1, hs), Part(c.script, m - 1, hs));
    }
  }

  /** The events of the first `k` tasks of `hs`. */
  ghost function Bodies<E>(c: Config<E>, hs: seq<nat>, k: nat): seq<Entry<E>>
    requires k <= |hs|
  {
    if k == 0 then [] else Bodies(c, hs, k - 1) + Stamp(Body(c, hs[k - 1]), hs[k - 1])
  }

  /** The first `k` of the held tasks are run to their ends, one after the other. */
  lemma {:induction false} Release<E(!new)>(c: Config<E>, s: State<E>, n: nat, hs: seq<nat>, k: nat)
      returns (s': State<E>)
    requires Steady(c, s, n) && Increasing(hs) && Holding(s, hs, |hs|) && k <= |hs|
    requires forall j :: 0 <= j < |hs| ==> s.Pos(hs[j]) == 0
    ensures Steady(c, s', n) && s'.queue == s.queue && |s'.workers| == |s.workers|
    ensures forall j :: 0 <= j < |s.workers| ==> s'.workers[j] == if j < k then Idle else s.workers[j]
    ensures forall j :: k <= j < |hs| ==> s'.Pos(hs[j]) == 0
    ensures s'.log == s.log + Bodies(c, hs, k)
    decreases k
  {
    s' := s;
    if k > 0 {
      var w, t := k - 1, hs[k - 1];
      var before := Release(c, s, n, hs, w);
      var done := WorkOn(c, before, n, w, |Body(c, t)|);
      s' := LeaveTask(c, done, n, w);
      assert Body(c, t)[0..] == Body(c, t);
    }
  }

  // ---------------------------------------------------------------- the end of a schedule

  /** Wait returns nil. */
  lemma PassWait<E(!new)>(c: Config<E>, s: State<E>, n: nat) returns (s': State<E>)
    requires Steady(c, s, n) && s.queue == [] && (forall w :: w in s.workers ==> w.Idle?)
    requires n < |c.script| && c.script[n].Wait?
    ensures Reachable(c, s') && s'.main.Active? && s'.pc == n + 1 && !s'.panicked && s'.log == s.log
  {
    ReachableInv(c, s);
    NobodyRunning(s.workers);
    s' := Reach(c, s, Spawn);
    s' := Reach(c, s', WgWaitReturns);
    s' := Reach(c, s', CloseDone);
    s' := Reach(c, s', SelectDone);
  }

  lemma {:induction false} EmitRest<E(!new)>(c: Config<E>, s: State<E>, n: nat) returns (s': State<E>)
    requires Reachable(c, s) && s.main.Active? && s.pc <= n <= |c.script| && !s.panicked
    requires forall o :: s.pc <= o < |c.script| ==> c.script[o].Emit?
    ensures Reachable(c, s') && s'.main.Active? && s'.pc == n && !s'.panicked
    ensures s'.log == s.log + Span(c.script, s.pc, n, [])
    decreases n
  {
    s' := s;
    if s.pc < n {
      var before := EmitRest(c, s, n - 1);
      s' := Reach(c, before, EmitNext);
      Associate(s.log, Span(c.script, s.pc, n - 1, []), Part(c.script, n - 1, []));
      assert Part(c.script, n - 1, []) == [Entry(n - 1, c.script[n - 1].event)];
    }
  }

  /** With more workers than held tasks there is a run that passes Wait and in which the held tasks come after
      all others. */
  lemma DelayedRun<E(!new)>(c: Config<E>, hs: seq<nat>, wait: nat) returns (s: State<E>)
    requires WaitIsLast(c.script) && wait < |c.script| && c.script[wait].Wait?
    requires (forall o :: 0 <= o < wait ==> !c.script[o].Wait?)
    requires (forall o :: wait < o < |c.script| ==> c.script[o].Emit?)
    requires Increasing(hs) && |hs| < c.parallelism
    requires forall k :: 0 <= k < |hs| ==> hs[k] < wait && c.script[hs[k]].Submit?
    ensures Reachable(c, s) && s.main.Completed?
    ensures s.log == Span(c.script, 0, wait, hs) + Bodies(c, hs, |hs|) + Span(c.script, wait + 1, |c.script|, [])
  {
    var held := HoldUntil(c, hs, wait);
    var done := Release(c, held, wait, hs, |hs|);
    assert forall w :: w in done.workers ==> w.Idle?;
    var passed := PassWait(c, done, wait);
    var end := EmitRest(c, passed, |c.script|);
    s := Reach(c, end, Return);
  }

  lemma HoldUntil<E(!new)>(c: Config<E>, hs: seq<nat>, wait: nat) returns (s: State<E>)
    requires WaitIsLast(c.script) && wait <= |c.script| && (forall o :: 0 <= o < wait ==> !c.script[o].Wait?)
    requires Increasing(hs) && |hs| < c.parallelism
    requires forall k :: 0 <= k < |hs| ==> hs[k] < wait && c.script[hs[k]].Submit?
    ensures Steady(c, s, wait) && s.queue == [] && Holding(s, hs, |hs|)
    ensures forall j :: 0 <= j < |hs| ==> s.Pos(hs[j]) == 0
    ensures s.log == Span(c.script, 0, wait, hs)
  {
    var start := Start(c);
    var r;
    s, r := Advance(c, start, 0, wait, hs, 0);
    forall j | 0 <= j < |hs| ensures s.Pos(hs[j]) == 0 { assert hs[j] in hs; }
  }

  lemma Start<E(!new)>(c: Config<E>) returns (s: State<E>)
    requires WaitIsLast(c.script)
    ensures s == Init(c) && Steady(c, s, 0)
  {
    s := Init(c);
    assert Run(c, s, [], s);
  }

  // ---------------------------------------------------------------- a task that is still running when Wait returns

  lemma {:induction false} RangeInQueue(q: seq<nat>, lo: nat, hi: nat)
    requires lo <= hi && forall u: nat :: lo <= u < hi ==> u in q
    ensures |q| >= hi - lo
    decreases hi
  {
    if lo < hi {
      var last: nat := hi - 1;
      assert last in q;
      var k: nat :| k < |q| && q[k] == last;
      var rest := q[..k] + q[k + 1..];
      forall u: nat | lo <= u < last ensures u in rest { StillIn(q, k, u); }
      RangeInQueue(rest, lo, last);
    }
  }

  lemma StillIn(q: seq<nat>, k: nat, u: nat)
    requires k < |q| && u in q && q[k] != u
    ensures u in q[..k] + q[k + 1..]
  {
    var rest := q[..k] + q[k + 1..];
    var j: nat :| j < |q| && q[j] == u;
    assert u == if j < k then rest[j] else rest[j - 1];
  }

  /** With one worker, every task submitted after the one it runs is still queued. */
  lemma LaterTaskIsQueued<E>(c: Config<E>, s: State<E>, t: nat, u: nat)
    requires Inv(c, s) && Fifo(s) && LastReceived(s) && |s.workers| == 1 && s.workers[0] == Busy(t)
    requires t < u < s.pc && c.script[u].Submit?
    ensures u in s.queue
  {
    OnePlace(c, s, u);
    var last := |s.started| - 1;
    forall k | 0 <= k < |s.started| ensures s.started[k] != u {
      assert (s.started + s.queue)[k] == s.started[k] && (s.started + s.queue)[last] == t;
    }
    assert u !in s.started && multiset(s.started)[u] == 0;
    assert u in multiset(s.queue);
  }

  /** So with one worker the tasks behind a running one fit into the channel. */
  lemma LaterTasksFit<E(!new)>(c: Config<E>, s: State<E>, t: nat)
    requires WaitIsLast(c.script) && Reachable(c, s) && c.parallelism == 1 && |s.workers| > 0 && s.workers[0] == Busy(t)
    requires t < s.pc <= |c.script| && forall u :: t < u < s.pc ==> c.script[u].Submit?
    ensures s.pc - 1 - t <= c.buffer
  {
    ReachableInv(c, s);
    ReachableFifo(c, s);
    forall u: nat | t + 1 <= u < s.pc ensures u in s.queue { LaterTaskIsQueued(c, s, t, u); }
    RangeInQueue(s.queue, t + 1, s.pc);
  }

  /** A task can be at any position of its body while the main goroutine stands before a later statement, if
      there is another worker or the tasks between fit into the channel. */
  lemma RunningWhileOthersProceed<E(!new)>(c: Config<E>, t: nat, k: nat, wait: nat) returns (s: State<E>)
    requires WaitIsLast(c.script) && t < wait <= |c.script| && (forall o :: 0 <= o < wait ==> !c.script[o].Wait?)
    requires c.script[t].Submit? && k <= |Body(c, t)| && c.parallelism > 0
    requires c.parallelism >= 2 || (wait - 1 - t <= c.buffer && forall o :: t < o < wait ==> c.script[o].Submit?)
    ensures Steady(c, s, wait) && s.workers[0] == Busy(t) && s.Pos(t) == k
  {
    if c.parallelism >= 2 {
      s := HoldUntil(c, [t], t + 1);
      s := WorkOn(c, s, t + 1, 0, k);
      var r;
      s, r := Advance(c, s, t + 1, wait, [t], 1);
    } else {
      s := HoldUntil(c, [], t);
      s := TakeTask(c, s, t, 0);
      s := WorkOn(c, s, t + 1, 0, k);
      s := QueueTasks(c, s, t + 1, wait);
    }
  }

  /** Then the context can expire and Wait can return, with the task where it was. */
  lemma ExpireWhileRunning<E(!new)>(c: Config<E>, t: nat, k: nat, wait: nat) returns (s: State<E>)
    requires WaitIsLast(c.script) && t < wait < |c.script| && (forall o :: 0 <= o < wait ==> !c.script[o].Wait?)
    requires c.script[wait].Wait?
    requires c.script[t].Submit? && k <= |Body(c, t)| && c.parallelism > 0
    requires c.parallelism >= 2 || (wait - 1 - t <= c.buffer && forall o :: t < o < wait ==> c.script[o].Submit?)
    ensures Reachable(c, s) && s.main.Expired? && |s.workers| > 0 && s.workers[0] == Busy(t) && s.Pos(t) == k
  {
    s := RunningWhileOthersProceed(c, t, k, wait);
    s := Reach(c, s, Spawn);
    s := Reach(c, s, Expire);
    s := Reach(c, s, SelectExpired);
  }
}
