/** When the operator runs its checks (pkg/operator/operator.go): the exponential backoff, the gate
    of a sync, the timer that wakes it up, and the restart on a change of the management state.
    Times and durations are nanoseconds. */
module Schedule {
  import opened Options

  const MINUTE: nat := 60_000_000_000
  const HOUR: nat := 60 * MINUTE
  const SILENCED_CAP: nat := 24 * HOUR
  const MAX_STEPS: nat := 2147483647

  const MANAGED := "Managed"
  const REMOVED := "Removed"

  /** wait.Backoff with factor 2, one percent of jitter and a cap of one hour. */
  datatype Backoff = Backoff(duration: nat, steps: nat)

  const DEFAULT_BACKOFF := Backoff(MINUTE, MAX_STEPS)
  const CAP := HOUR

  /** The backoff after Step; reaching the cap pins the duration there. */
  function Stepped(b: Backoff): Backoff {
    if b.steps < 1 then b.(steps := 0)
    else if 2 * b.duration > CAP then Backoff(CAP, 0)
    else Backoff(2 * b.duration, b.steps - 1)
  }

  /** What one performed round meets. `runError`: the round could not be run to its end;
      `checkError`: some check failed; `blocked`: upgrades are blocked; `extra` and `extraBlocked`
      are the jitter of the first and of the second Step. */
  datatype Round = Round(silenced: bool, runError: bool, checkError: bool, blocked: bool, extra: nat, extraBlocked: nat)

  predicate Fails(r: Round) {
    r.runError || (r.checkError && !r.silenced)
  }

  /** A round without any error that blocks upgrades is repeated soon. */
  predicate BlockedPass(r: Round) {
    !r.runError && !r.checkError && r.blocked && !r.silenced
  }

  function BackoffAfter(b: Backoff, r: Round): Backoff {
    if Fails(r) then Stepped(b) else if BlockedPass(r) then Stepped(DEFAULT_BACKOFF) else DEFAULT_BACKOFF
  }

  /** The delay without jitter. */
  function BaseDelay(b: Backoff, r: Round): nat {
    if Fails(r) then b.duration
    else if BlockedPass(r) then DEFAULT_BACKOFF.duration
    else if r.silenced then SILENCED_CAP
    else CAP
  }

  function Delay(b: Backoff, r: Round): nat {
    BaseDelay(b, r) + if Fails(r) then r.extra else if BlockedPass(r) then r.extraBlocked else 0
  }

  predicate JitterOk(b: Backoff, r: Round) {
    100 * r.extra <= b.duration && 100 * r.extraBlocked <= DEFAULT_BACKOFF.duration
  }

  // ---------------------------------------------------------------- the controller

  /** What a sync sees: None is an error of a lister. `now` is the clock at the gate, `started` when
      lastCheck is taken, `armed` when the timer is armed. */
  datatype Sync = Sync(
    operatorState: Option<string>, supported: Option<bool>, driverState: Option<string>,
    now: int, started: int, armed: int,
    runError: bool, checkError: bool, blocked: bool, extra: nat, extraBlocked: nat)

  datatype Outcome =
    | ListerError | NotManaged | Restart | NotDue
    | Performed(delay: nat, failed: bool, blockUpgrade: bool)

  datatype Sched = Sched(
    lastCheck: int, nextCheck: int, backoff: Backoff, oldManagedState: string, timers: seq<int>)

  function RoundOf(e: Sync): Round
    requires e.driverState.Some?
  {
    Round(e.driverState.value == REMOVED, e.runError, e.checkError, e.blocked, e.extra, e.extraBlocked)
  }

  predicate ReachesDriver(e: Sync) {
    e.operatorState == Some(MANAGED) && e.supported == Some(true) && e.driverState.Some?
  }

  predicate Flips(before: string, state: string) {
    (before == MANAGED && state == REMOVED) || (before == REMOVED && state == MANAGED)
  }

  predicate ReachesGate(s: Sched, e: Sync) {
    ReachesDriver(e) && !Flips(s.oldManagedState, e.driverState.value)
  }

  /** The gate is strict. */
  predicate Due(s: Sched, e: Sync) {
    e.now > s.nextCheck
  }

  predicate Performs(s: Sched, e: Sync) {
    ReachesGate(s, e) && Due(s, e)
  }

  predicate SyncOk(s: Sched, e: Sync) {
    && e.now <= e.started <= e.armed
    && (e.driverState.Some? ==> JitterOk(s.backoff, RoundOf(e)))
  }

  function AfterSync(s: Sched, e: Sync): Sched {
    if !ReachesDriver(e) then s
    else if !Performs(s, e) then s.(oldManagedState := e.driverState.value)
    else
      var delay := Delay(s.backoff, RoundOf(e));
      Sched(e.started, e.started + delay, BackoffAfter(s.backoff, RoundOf(e)), e.driverState.value,
            s.timers + [e.armed + delay])
  }

  function OutcomeOf(s: Sched, e: Sync): Outcome {
    if e.operatorState.None? then ListerError
    else if e.operatorState.value != MANAGED then NotManaged
    else if e.supported.None? then ListerError
    else if !e.supported.value then NotManaged
    else if e.driverState.None? then ListerError
    else if Flips(s.oldManagedState, e.driverState.value) then Restart
    else if !Due(s, e) then NotDue
    else Performed(Delay(s.backoff, RoundOf(e)), e.runError || e.checkError, e.blocked)
  }

  class Controller {
    var lastCheck: int
    var nextCheck: int
    var backoff: Backoff
    var oldManagedState: string
    var silenced: bool
    var timers: seq<int> // deadlines of the armed timers

    ghost function Now(): Sched
      reads this
    {
      Sched(lastCheck, nextCheck, backoff, oldManagedState, timers)
    }

    constructor ()
      ensures Now() == INITIAL
    {
      lastCheck, nextCheck, backoff, oldManagedState, silenced, timers := 0, 0, DEFAULT_BACKOFF, "", false, [];
    }

    method Step(extra: nat) returns (delay: nat)
      requires 100 * extra <= backoff.duration
      modifies this`backoff
      ensures backoff == Stepped(old(backoff))
      ensures delay == old(backoff).duration + extra
    {
      delay := backoff.duration + extra;
      if backoff.steps < 1 {
        backoff := Backoff(backoff.duration, 0);
        return;
      }
      var next, steps := 2 * backoff.duration, backoff.steps - 1;
      if next > CAP {
        next, steps := CAP, 0;
      }
      backoff := Backoff(next, steps);
    }

    method CheckStateChange(state: string) returns (restart: bool)
      modifies this`oldManagedState
      ensures restart <==> Flips(old(oldManagedState), state)
      ensures oldManagedState == state
    {
      if oldManagedState == "" {
        oldManagedState := state;
        return false;
      }
      if (oldManagedState == MANAGED && state == REMOVED) || (oldManagedState == REMOVED && state == MANAGED) {
        oldManagedState := state;
        return true;
      }
      oldManagedState := state;
      return false;
    }

    /** The backoff is stepped before the outcome is known, and reset on success. */
    method RunChecks(e: Sync) returns (delay: nat, failed: bool)
      requires 100 * e.extra <= backoff.duration
      modifies this`backoff, this`lastCheck
      ensures lastCheck == e.started
      ensures failed <==> e.runError || e.checkError
      ensures if e.runError || (e.checkError && !silenced)
              then backoff == Stepped(old(backoff)) && delay == old(backoff).duration + e.extra
              else backoff == DEFAULT_BACKOFF && delay == if silenced then SILENCED_CAP else CAP
    {
      var nextErrorDelay := Step(e.extra);
      lastCheck := e.started;
      if e.runError {
        return nextErrorDelay, true;
      }
      if e.checkError && !silenced {
        delay := nextErrorDelay;
      } else {
        backoff := DEFAULT_BACKOFF;
        if silenced { delay := SILENCED_CAP; } else { delay := CAP; }
      }
      failed := e.checkError;
    }

    method RunSyncChecks(e: Sync) returns (delay: nat, failed: bool, performed: bool)
      requires e.driverState.Some? && silenced == RoundOf(e).silenced && JitterOk(backoff, RoundOf(e))
      modifies this`backoff, this`lastCheck
      ensures performed <==> e.now > nextCheck
      ensures !performed ==> backoff == old(backoff) && lastCheck == old(lastCheck)
      ensures performed ==>
        && lastCheck == e.started && backoff == BackoffAfter(old(backoff), RoundOf(e))
        && delay == Delay(old(backoff), RoundOf(e)) && (failed <==> e.runError || e.checkError)
    {
      delay, failed, performed := 0, false, false;
      if !(e.now > nextCheck) { return; }
      delay, failed := RunChecks(e);
      if e.blocked && !failed && !silenced {
        delay := Step(e.extraBlocked);
      }
      performed := true;
    }

    method Sync(e: Sync) returns (o: Outcome)
      requires SyncOk(Now(), e)
      modifies this
      ensures Now() == AfterSync(old(Now()), e)
      ensures o == OutcomeOf(old(Now()), e)
    {
      if e.operatorState.None? { return ListerError; }
      if e.operatorState.value != MANAGED { return NotManaged; }
      if e.supported.None? { return ListerError; }
      if !e.supported.value { return NotManaged; }
      if e.driverState.None? { return ListerError; }
      silenced := e.driverState.value == REMOVED;
      var restart := CheckStateChange(e.driverState.value);
      if restart { return Restart; }
      var delay, failed, performed := RunSyncChecks(e);
      if !performed { return NotDue; }
      nextCheck := lastCheck + delay;
      timers := timers + [e.armed + delay];
      return Performed(delay, failed, e.blocked);
    }
  }

  // ---------------------------------------------------------------- the backoff over all histories

  function AfterRounds(rounds: seq<Round>): Backoff {
    if rounds == [] then DEFAULT_BACKOFF
    else BackoffAfter(AfterRounds(rounds[..|rounds| - 1]), rounds[|rounds| - 1])
  }

  /** How many Steps were taken since the last reset. */
  function StepsSinceReset(rounds: seq<Round>): nat {
    if rounds == [] then 0
    else
      var last := rounds[|rounds| - 1];
      if Fails(last) then StepsSinceReset(rounds[..|rounds| - 1]) + 1
      else if BlockedPass(last) then 1
      else 0
  }

  function Pow2(k: nat): nat {
    if k == 0 then 1 else 2 * Pow2(k - 1)
  }

  /** min(60, 2^k) minutes. */
  function Minutes(k: nat): nat {
    if Pow2(k) < 60 then Pow2(k) * MINUTE else HOUR
  }

  lemma {:induction false} Pow2Grows(k: nat)
    ensures Pow2(k) >= 1
    ensures k >= 6 ==> Pow2(k) >= 64
    ensures k <= 5 ==> Pow2(k) <= 32
  {
    if k > 0 { Pow2Grows(k - 1); }
  }

  /** The stored duration is min(60, 2^k) minutes after any history of rounds. */
  lemma {:induction false} BackoffClosedForm(rounds: seq<Round>)
    ensures var k := StepsSinceReset(rounds);
      AfterRounds(rounds).duration == Minutes(k) && AfterRounds(rounds).steps == if k < 6 then MAX_STEPS - k else 0
  {
    Pow2Grows(0);
    Pow2Grows(1);
    if rounds != [] {
      var k := StepsSinceReset(rounds[..|rounds| - 1]);
      BackoffClosedForm(rounds[..|rounds| - 1]);
      Pow2Grows(k);
      Pow2Grows(k + 1);
    }
  }

  lemma {:induction false} StepsAfterFailures(before: seq<Round>, failures: seq<Round>)
    requires forall r :: r in failures ==> Fails(r)
    ensures StepsSinceReset(before + failures) == StepsSinceReset(before) + |failures|
  {
    if failures == [] {
      assert before + failures == before;
    } else {
      var init := failures[..|failures| - 1];
      assert (before + failures)[..|before + failures| - 1] == before + init;
      StepsAfterFailures(before, init);
      assert failures[|failures| - 1] in failures;
    }
  }

  /** The base delay of the failing round that follows `failures`, all failing, which in turn
      follow `before`: with j = |failures| + 1 it is min(60, 2^(j-1)) minutes after the start or
      after a clean pass, and min(60, 2^j) minutes after a pass that blocks upgrades. */
  lemma FailureDelays(before: seq<Round>, failures: seq<Round>, r: Round)
    requires forall f :: f in failures ==> Fails(f)
    requires Fails(r) && (before == [] || !Fails(before[|before| - 1]))
    ensures BaseDelay(AfterRounds(before + failures), r) ==
      Minutes(|failures| + if before != [] && BlockedPass(before[|before| - 1]) then 1 else 0)
  {
    StepsAfterFailures(before, failures);
    BackoffClosedForm(before + failures);
  }

  /** A passing round that blocks upgrades is repeated after one minute, whatever came before. */
  lemma BlockedPassDelay(rounds: seq<Round>, r: Round)
    requires BlockedPass(r) && JitterOk(AfterRounds(rounds), r)
    ensures MINUTE <= Delay(AfterRounds(rounds), r) && 100 * Delay(AfterRounds(rounds), r) <= 101 * MINUTE
    ensures StepsSinceReset(rounds + [r]) == 1
  {
    assert (rounds + [r])[..|rounds|] == rounds;
  }

  // ---------------------------------------------------------------- what a performed round leaves, in full

  /** What a sync that performs a round leaves, case by case, in nanoseconds. */
  lemma PerformedSync(s: Sched, e: Sync)
    requires Performs(s, e)
    ensures var s', removed := AfterSync(s, e), e.driverState == Some("Removed");
      var failed := e.runError || (e.checkError && !removed);
      var soon := !e.runError && !e.checkError && e.blocked && !removed;
      var delay := s'.nextCheck - e.started;
      && s'.lastCheck == e.started && s'.oldManagedState == e.driverState.value
      && s'.timers == s.timers + [e.armed + delay]
      && (failed ==> delay == s.backoff.duration + e.extra)
      && (soon ==> delay == 60_000_000_000 + e.extraBlocked)
      && (!failed && !soon && !removed ==> delay == 3_600_000_000_000)
      && (!failed && removed ==> delay == 86_400_000_000_000)
      && (!failed ==> s'.backoff.duration == if soon then 120_000_000_000 else 60_000_000_000)
      && OutcomeOf(s, e) == Performed(delay, e.runError || e.checkError, e.blocked)
  {
  }

  /** A sync performs a round exactly when the operator is managed, the platform is supported, the driver's state can
      be read and does not flip, and the clock is past the gate; otherwise it leaves at most the driver's state. */
  lemma PerformsExactlyWhen(s: Sched, e: Sync)
    ensures Performs(s, e) <==>
      && e.operatorState == Some("Managed") && e.supported == Some(true) && e.driverState.Some?
      && !(s.oldManagedState == "Managed" && e.driverState.value == "Removed")
      && !(s.oldManagedState == "Removed" && e.driverState.value == "Managed")
      && e.now > s.nextCheck
    ensures OutcomeOf(s, e).Performed? <==> Performs(s, e)
    ensures !Performs(s, e) ==>
      AfterSync(s, e) == s.(oldManagedState :=
        if e.operatorState == Some("Managed") && e.supported == Some(true) && e.driverState.Some?
        then e.driverState.value else s.oldManagedState)
  {
  }

  /** Between one minute and 1.01 hours, unless a silenced round went through. */
  lemma DelayBounds(rounds: seq<Round>, r: Round)
    requires JitterOk(AfterRounds(rounds), r)
    ensures var d := Delay(AfterRounds(rounds), r);
      if r.silenced && !r.runError then d == SILENCED_CAP else MINUTE <= d && 100 * d <= 101 * HOUR
  {
    BackoffClosedForm(rounds);
    Pow2Grows(StepsSinceReset(rounds));
  }

  // ---------------------------------------------------------------- the gate and the timer

  /** A sync that does not perform a round changes nothing that decides about the next one. */
  lemma OnlyPerformedRoundsReschedule(s: Sched, e: Sync)
    ensures OutcomeOf(s, e).Performed? <==> Performs(s, e)
    ensures !Performs(s, e) ==>
      var s' := AfterSync(s, e);
      s'.lastCheck == s.lastCheck && s'.nextCheck == s.nextCheck && s'.backoff == s.backoff && s'.timers == s.timers
  {
  }

  /** A history of syncs, each on the state the previous ones left. */
  predicate HistoryOk(s: Sched, syncs: seq<Sync>)
    decreases |syncs|
  {
    syncs == [] || (SyncOk(s, syncs[0]) && HistoryOk(AfterSync(s, syncs[0]), syncs[1..]))
  }

  function AfterSyncs(s: Sched, syncs: seq<Sync>): Sched
    decreases |syncs|
  {
    if syncs == [] then s else AfterSyncs(AfterSync(s, syncs[0]), syncs[1..])
  }

  ghost predicate NonePerforms(s: Sched, syncs: seq<Sync>)
    decreases |syncs|
  {
    syncs == [] || (!Performs(s, syncs[0]) && NonePerforms(AfterSync(s, syncs[0]), syncs[1..]))
  }

  lemma {:induction false} IdleSyncsKeepGate(s: Sched, syncs: seq<Sync>)
    requires NonePerforms(s, syncs)
    ensures AfterSyncs(s, syncs).nextCheck == s.nextCheck && AfterSyncs(s, syncs).lastCheck == s.lastCheck
    decreases |syncs|
  {
    if syncs != [] { IdleSyncsKeepGate(AfterSync(s, syncs[0]), syncs[1..]); }
  }

  /** Successive performed rounds start more than the chosen delay apart, whatever syncs lie between. */
  lemma RoundSpacing(s: Sched, first: Sync, between: seq<Sync>, second: Sync)
    requires Performs(s, first) && SyncOk(s, first)
    requires NonePerforms(AfterSync(s, first), between)
    requires Performs(AfterSyncs(AfterSync(s, first), between), second)
    requires SyncOk(AfterSyncs(AfterSync(s, first), between), second)
    ensures second.started > first.started + Delay(s.backoff, RoundOf(first))
  {
    IdleSyncsKeepGate(AfterSync(s, first), between);
  }

  const INITIAL := Sched(0, 0, DEFAULT_BACKOFF, "", [])

  /** The state after the first `k` syncs of a history from the start of the process. */
  function StateAt(syncs: seq<Sync>, k: nat): Sched
    requires k <= |syncs|
  {
    AfterSyncs(INITIAL, syncs[..k])
  }

  lemma {:induction false} OneMoreSync(s: Sched, syncs: seq<Sync>, k: nat)
    requires k < |syncs| && HistoryOk(s, syncs)
    ensures SyncOk(AfterSyncs(s, syncs[..k]), syncs[k])
    ensures AfterSyncs(s, syncs[..k + 1]) == AfterSync(AfterSyncs(s, syncs[..k]), syncs[k])
    decreases k
  {
    if k == 0 {
      assert syncs[..0] == [] && syncs[..1] == [syncs[0]] && [syncs[0]][1..] == [];
      assert AfterSyncs(s, [syncs[0]]) == AfterSyncs(AfterSync(s, syncs[0]), []);
    } else {
      OneMoreSync(AfterSync(s, syncs[0]), syncs[1..], k - 1);
      assert syncs[..k][1..] == syncs[1..][..k - 1] && syncs[..k + 1][1..] == syncs[1..][..k];
    }
  }

  /** The rounds that the first `k` syncs perform. */
  function RoundsOf(syncs: seq<Sync>, k: nat): seq<Round>
    requires k <= |syncs|
  {
    if k == 0 then []
    else RoundsOf(syncs, k - 1) + if Performs(StateAt(syncs, k - 1), syncs[k - 1]) then [RoundOf(syncs[k - 1])] else []
  }

  /** The controller's backoff is the one of the rounds it has performed, whatever syncs lie between them. */
  lemma {:induction false} BackoffFollowsRounds(syncs: seq<Sync>, k: nat)
    requires k <= |syncs| && HistoryOk(INITIAL, syncs)
    ensures StateAt(syncs, k).backoff == AfterRounds(RoundsOf(syncs, k))
  {
    if k > 0 {
      var before, last := RoundsOf(syncs, k - 1), syncs[k - 1];
      BackoffFollowsRounds(syncs, k - 1);
      OneMoreSync(INITIAL, syncs, k - 1);
      if Performs(StateAt(syncs, k - 1), last) {
        assert (before + [RoundOf(last)])[..|before|] == before;
      } else {
        assert RoundsOf(syncs, k) == before;
      }
    }
  }

  /** In every history the stored duration is min(60, 2^k) minutes, and a round that is performed chooses a
      delay of at least one minute, and of at most 1.01 hours unless it is silenced. */
  lemma HistoryDelays(syncs: seq<Sync>, k: nat)
    requires k < |syncs| && HistoryOk(INITIAL, syncs)
    ensures StateAt(syncs, k).backoff.duration == Minutes(StepsSinceReset(RoundsOf(syncs, k)))
    ensures Performs(StateAt(syncs, k), syncs[k]) ==>
      var r := RoundOf(syncs[k]);
      var d := Delay(StateAt(syncs, k).backoff, r);
      MINUTE <= d && ((r.silenced && !r.runError) || 100 * d <= 101 * HOUR)
  {
    BackoffFollowsRounds(syncs, k);
    BackoffClosedForm(RoundsOf(syncs, k));
    OneMoreSync(INITIAL, syncs, k);
    if Performs(StateAt(syncs, k), syncs[k]) { DelayBounds(RoundsOf(syncs, k), RoundOf(syncs[k])); }
  }

  lemma {:induction false} GateNeverMovesBack(syncs: seq<Sync>, j: nat, k: nat)
    requires j <= k <= |syncs| && HistoryOk(INITIAL, syncs)
    ensures StateAt(syncs, j).nextCheck <= StateAt(syncs, k).nextCheck
  {
    if j < k {
      GateNeverMovesBack(syncs, j, k - 1);
      OneMoreSync(INITIAL, syncs, k - 1);
      HistoryDelays(syncs, k - 1);
    }
  }

  /** The next round is due after an hour, and a timer is armed for it. */
  ghost predicate WaitsAnHour(s: Sched, e: Sync, s': Sched) {
    && s'.nextCheck == e.started + 60 * 60_000_000_000
    && s'.timers == s.timers + [e.armed + 60 * 60_000_000_000]
    && s'.backoff.duration == 60_000_000_000
  }

  lemma CleanPass(s: Sched, e: Sync, s': Sched)
    requires s' == AfterSync(s, e)
    requires Performs(s, e) && !e.runError && !e.checkError && !e.blocked && e.driverState != Some("Removed")
    ensures WaitsAnHour(s, e, s')
  {
    PerformedSync(s, e);
  }

  lemma StateAfter(syncs: seq<Sync>, k: nat, s: Sched)
    requires k < |syncs| && HistoryOk(INITIAL, syncs) && s == StateAt(syncs, k)
    ensures StateAt(syncs, k + 1) == AfterSync(s, syncs[k])
  {
    OneMoreSync(INITIAL, syncs, k);
  }

  /** After a round with neither errors nor a reason to block upgrades, of a driver that is not Removed, the next one
      is due after an hour and a timer is armed for it, whatever came before. */
  lemma CleanPassWaitsAnHour(syncs: seq<Sync>, k: nat, s: Sched)
    requires k < |syncs| && HistoryOk(INITIAL, syncs) && s == StateAt(syncs, k) && Performs(s, syncs[k])
    requires var e := syncs[k]; !e.runError && !e.checkError && !e.blocked && e.driverState != Some("Removed")
    ensures WaitsAnHour(s, syncs[k], StateAt(syncs, k + 1))
  {
    StateAfter(syncs, k, s);
    CleanPass(s, syncs[k], StateAt(syncs, k + 1));
  }

  /** Any two rounds of a history start more than the delay chosen by the earlier one apart, and so more than
      one minute. */
  lemma RoundsAreApart(syncs: seq<Sync>, j: nat, k: nat)
    requires j < k < |syncs| && HistoryOk(INITIAL, syncs)
    requires Performs(StateAt(syncs, j), syncs[j]) && Performs(StateAt(syncs, k), syncs[k])
    ensures syncs[k].started > syncs[j].started + Delay(StateAt(syncs, j).backoff, RoundOf(syncs[j]))
    ensures syncs[k].started > syncs[j].started + MINUTE
  {
    OneMoreSync(INITIAL, syncs, j);
    OneMoreSync(INITIAL, syncs, k);
    HistoryDelays(syncs, j);
    GateNeverMovesBack(syncs, j + 1, k);
  }

  /** A sync at the very deadline of the timer passes the gate exactly when the clock had advanced
      between taking lastCheck and arming the timer. */
  lemma TimerPassesGateExactlyIfClockAdvanced(s: Sched, e: Sync, wake: Sync)
    requires Performs(s, e) && SyncOk(s, e)
    requires wake.now == e.armed + Delay(s.backoff, RoundOf(e))
    ensures Due(AfterSync(s, e), wake) <==> e.armed > e.started
  {
  }

  /** The world around the controller: a clock, and the work queue's single key. */
  datatype World = World(sched: Sched, clock: int, queued: bool, performedOnce: bool)

  datatype Event =
    | Tick(to: int)      // time passes
    | Fire(k: nat)       // the k-th pending timer fires and queues the key
    | Run(sync: Sync)    // the queue is processed, or an informer triggers a sync

  predicate Happens(w: World, ev: Event) {
    match ev
    case Tick(to) => w.clock <= to
    case Fire(k) => k < |w.sched.timers| && w.sched.timers[k] <= w.clock
    case Run(e) => w.clock <= e.now && SyncOk(w.sched, e)
  }

  function Then(w: World, ev: Event): World
    requires Happens(w, ev)
  {
    match ev
    case Tick(to) => w.(clock := to)
    case Fire(k) => w.(sched := w.sched.(timers := w.sched.timers[..k] + w.sched.timers[k + 1..]), queued := true)
    case Run(e) =>
      World(AfterSync(w.sched, e), e.armed, false, w.performedOnce || Performs(w.sched, e))
  }

  /** The assumptions: syncs reach the gate, and the clock advances while the checks run. */
  ghost predicate Undisturbed(w: World, ev: Event) {
    ev.Run? ==> ReachesGate(w.sched, ev.sync) && (Performs(w.sched, ev.sync) ==> ev.sync.armed > ev.sync.started)
  }

  ghost predicate WakeUpPending(w: World) {
    w.performedOnce ==>
      || (exists k :: 0 <= k < |w.sched.timers| && w.sched.timers[k] > w.sched.nextCheck)
      || (w.queued && w.clock > w.sched.nextCheck)
  }

  lemma WakeUpStep(w: World, ev: Event)
    requires Happens(w, ev) && Undisturbed(w, ev) && WakeUpPending(w)
    ensures WakeUpPending(Then(w, ev))
  {
    var w' := Then(w, ev);
    if w.performedOnce && w.queued && w.clock > w.sched.nextCheck {
      if ev.Run? { assert w'.sched.timers[|w'.sched.timers| - 1] > w'.sched.nextCheck; }
    } else if w.performedOnce {
      var k :| 0 <= k < |w.sched.timers| && w.sched.timers[k] > w.sched.nextCheck;
      match ev
      case Tick(_) =>
      case Fire(j) =>
        if k < j { assert w'.sched.timers[k] == w.sched.timers[k]; }
        if k > j { assert w'.sched.timers[k - 1] == w.sched.timers[k]; }
      case Run(e) =>
        if Performs(w.sched, e) {
          assert w'.sched.timers[|w'.sched.timers| - 1] > w'.sched.nextCheck;
        } else {
          assert w'.sched.timers[k] == w.sched.timers[k];
        }
    } else if ev.Run? && Performs(w.sched, ev.sync) {
      assert w'.sched.timers[|w'.sched.timers| - 1] > w'.sched.nextCheck;
    }
  }

  ghost predicate Story(w: World, events: seq<Event>, w': World)
    decreases |events|
  {
    if events == [] then w == w'
    else Happens(w, events[0]) && Undisturbed(w, events[0]) && Story(Then(w, events[0]), events[1..], w')
  }

  const START := World(INITIAL, 0, false, false)

  lemma {:induction false} WakeUpAlong(w: World, events: seq<Event>, w': World)
    requires WakeUpPending(w) && Story(w, events, w')
    ensures WakeUpPending(w')
    decreases |events|
  {
    if events != [] {
      WakeUpStep(w, events[0]);
      WakeUpAlong(Then(w, events[0]), events[1..], w');
    }
  }

  /** No lost wake-up: once a round has been performed, after any further history either a timer is
      pending whose deadline lies beyond the gate, or the key is queued and the next sync is due. */
  lemma NoLostWakeUp(events: seq<Event>, w: World)
    requires Story(START, events, w)
    ensures WakeUpPending(w)
  {
    WakeUpAlong(START, events, w);
  }

  /** So a sync that runs when the pending timers have elapsed always performs the next round. */
  lemma ElapsedTimersPerformRound(events: seq<Event>, w: World, e: Sync)
    requires Story(START, events, w) && w.performedOnce
    requires w.clock <= e.now && ReachesGate(w.sched, e)
    requires forall k :: 0 <= k < |w.sched.timers| ==> w.sched.timers[k] <= e.now
    ensures Performs(w.sched, e)
  {
    NoLostWakeUp(events, w);
  }

  // ---------------------------------------------------------------- restart

  /** A history from the start of a process in which that process never restarts. */
  ghost predicate RestartFree(syncs: seq<Sync>) {
    && HistoryOk(INITIAL, syncs)
    && forall k :: 0 <= k < |syncs| ==> !OutcomeOf(StateAt(syncs, k), syncs[k]).Restart?
  }

  /** Every sync that gets as far as the driver's state sees one of these. */
  ghost predicate SeesOnly(syncs: seq<Sync>, states: set<string>) {
    forall e :: e in syncs && ReachesDriver(e) ==> e.driverState.value in states
  }

  /** All of those syncs silence the reports, or none does. */
  ghost predicate OneSilencing(syncs: seq<Sync>) {
    forall d, e :: d in syncs && e in syncs && ReachesDriver(d) && ReachesDriver(e) ==>
      (RoundOf(d).silenced <==> RoundOf(e).silenced)
  }

  /** The same of the rounds that the history performs. */
  ghost predicate OneSilencingOfRounds(syncs: seq<Sync>) {
    forall j, k ::
      && 0 <= j < |syncs| && 0 <= k < |syncs|
      && Performs(StateAt(syncs, j), syncs[j]) && Performs(StateAt(syncs, k), syncs[k]) ==>
      (RoundOf(syncs[j]).silenced <==> RoundOf(syncs[k]).silenced)
  }

  /** With Managed and Removed only, the state remembered is the one that all syncs so far have seen. */
  lemma {:induction false} RemembersTheOneState(syncs: seq<Sync>, k: nat)
    requires k <= |syncs| && RestartFree(syncs) && SeesOnly(syncs, {MANAGED, REMOVED})
    ensures StateAt(syncs, k).oldManagedState in {"", MANAGED, REMOVED}
    ensures forall j :: 0 <= j < k && ReachesDriver(syncs[j]) ==>
      syncs[j].driverState.value == StateAt(syncs, k).oldManagedState
  {
    if k > 0 {
      RemembersTheOneState(syncs, k - 1);
      OneMoreSync(INITIAL, syncs, k - 1);
      assert syncs[k - 1] in syncs && !OutcomeOf(StateAt(syncs, k - 1), syncs[k - 1]).Restart?;
    }
  }

  /** As long as the syncs see Managed or Removed only, one process never runs silenced and unsilenced: the
      first sync with the other state restarts it, whatever syncs end before the driver's state. */
  lemma SilencingIsFixedPerProcess(syncs: seq<Sync>)
    requires RestartFree(syncs) && SeesOnly(syncs, {MANAGED, REMOVED})
    ensures OneSilencing(syncs)
  {
    RemembersTheOneState(syncs, |syncs|);
    forall e | e in syncs && ReachesDriver(e) ensures e.driverState.value == StateAt(syncs, |syncs|).oldManagedState {
      var j :| 0 <= j < |syncs| && syncs[j] == e;
    }
  }

  /** A sync at some time that performs a round without errors if it is due. */
  function CleanSync(state: string, time: int): Sync {
    Sync(Some(MANAGED), Some(true), Some(state), time, time, time, false, false, false, 0, 0)
  }

  /** A round with Removed and, when it is due, one with a state that is neither Managed nor Removed. */
  function Mixed(state: string): seq<Sync> {
    [CleanSync(REMOVED, 1), CleanSync(state, 2 + SILENCED_CAP)]
  }

  lemma MixedHistory(state: string)
    requires state != MANAGED && state != REMOVED
    ensures RestartFree(Mixed(state)) && SeesOnly(Mixed(state), {REMOVED, state})
    ensures !OneSilencingOfRounds(Mixed(state)) && !OneSilencing(Mixed(state))
  {
    var syncs := Mixed(state);
    var s1 := AfterSync(INITIAL, syncs[0]);
    assert syncs[..0] == [] && syncs[1..] == [syncs[1]] && [syncs[1]][1..] == [];
    assert StateAt(syncs, 0) == INITIAL && HistoryOk(s1, [syncs[1]]);
    OneMoreSync(INITIAL, syncs, 0);
    assert StateAt(syncs, 1) == s1 && s1.nextCheck == 1 + SILENCED_CAP;
    assert Performs(StateAt(syncs, 0), syncs[0]) && Performs(StateAt(syncs, 1), syncs[1]);
    assert syncs[0] in syncs && syncs[1] in syncs;
  }

  lemma RoundsOfOneSilencing(syncs: seq<Sync>)
    requires OneSilencing(syncs)
    ensures OneSilencingOfRounds(syncs)
  {
    forall k | 0 <= k < |syncs| && Performs(StateAt(syncs, k), syncs[k])
      ensures ReachesDriver(syncs[k]) && syncs[k] in syncs
    {
    }
  }

  /** Every process that sees driver states of this set only keeps to one silencing. */
  ghost predicate SilencingIsFixed(states: set<string>) {
    forall syncs :: RestartFree(syncs) && SeesOnly(syncs, states) ==> OneSilencing(syncs)
  }

  ghost predicate SilencingOfRoundsIsFixed(states: set<string>) {
    forall syncs :: RestartFree(syncs) && SeesOnly(syncs, states) ==> OneSilencingOfRounds(syncs)
  }

  predicate OnlyFlipsChangeSilencing(states: set<string>) {
    REMOVED !in states || states <= {MANAGED, REMOVED}
  }

  /** The restart keeps a process to one silencing exactly when the driver's states either never include
      Removed or include nothing besides Managed and Removed. */
  lemma SilencingIsFixedExactlyWhen(states: set<string>)
    ensures SilencingIsFixed(states) <==> OnlyFlipsChangeSilencing(states)
    ensures SilencingOfRoundsIsFixed(states) <==> OnlyFlipsChangeSilencing(states)
  {
    if OnlyFlipsChangeSilencing(states) {
      forall syncs | RestartFree(syncs) && SeesOnly(syncs, states)
        ensures OneSilencing(syncs) && OneSilencingOfRounds(syncs)
      {
        if REMOVED in states { SilencingIsFixedPerProcess(syncs); }
        RoundsOfOneSilencing(syncs);
      }
    } else {
      var other :| other in states && other !in {MANAGED, REMOVED};
      MixedHistory(other);
      assert SeesOnly(Mixed(other), states);
    }
  }

  /** Through any third state the two can follow each other without a restart. */
  lemma ThirdStateHidesTheFlip(s: Sched, third: Sync, e: Sync)
    requires s.oldManagedState == MANAGED
    requires ReachesDriver(third) && third.driverState.value != MANAGED && third.driverState.value != REMOVED
    requires ReachesDriver(e) && e.driverState.value == REMOVED
    ensures !OutcomeOf(s, third).Restart? && !OutcomeOf(AfterSync(s, third), e).Restart?
    ensures RoundOf(e).silenced && OutcomeOf(s, e).Restart?
  {
  }
}
