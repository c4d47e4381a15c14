/**
 `src/attempt-deadline.ts`: how long one execution attempt may take. The clock and the
 timer queue are the environment's: a reading never goes back, and a timer may fire
 late, or early.
 */
module AttemptDeadline {
  import opened Wrappers

  const MAX_SAFE_INTEGER: nat := 9007199254740991
  const MAX_TIMER_DELAY_MS: nat := 2147483647
  const CLOSE_OBSERVATION_TOLERANCE_MS: nat := 5500

  // ----- The timing of one stage

  datatype Timing = Timing(warningAfterMs: nat, finishingMs: nat, hardLimitMs: nat)

  predicate IsPositiveSafeInteger(value: int) {
    0 < value <= MAX_SAFE_INTEGER
  }

  function Max(a: int, b: int): int {
    if a < b then b else a
  }

  function Min(a: int, b: int): int {
    if a < b then a else b
  }

  /**
   `stageWrapUpTiming`: refused for anything but a positive safe integer. Finishing and closing fit
   in after the warning exactly.
   */
  function StageWrapUpTiming(budgetMs: int): (t: Option<Timing>)
    ensures t.Some? <==> IsPositiveSafeInteger(budgetMs)
    ensures t.Some? ==>
              && t.value.warningAfterMs + CLOSE_OBSERVATION_TOLERANCE_MS + t.value.finishingMs == t.value.hardLimitMs
              && budgetMs <= t.value.hardLimitMs
              && 1 <= t.value.finishingMs <= 300000
              && (t.value.hardLimitMs > budgetMs <==> budgetMs < CLOSE_OBSERVATION_TOLERANCE_MS + t.value.finishingMs)
              && (t.value.hardLimitMs > budgetMs ==> t.value.warningAfterMs == 0)
  {
    if !IsPositiveSafeInteger(budgetMs) then None
    else
      var finishing := Min(300000, Max(1, budgetMs / 10));
      Some(Timing(Max(0, budgetMs - finishing - CLOSE_OBSERVATION_TOLERANCE_MS), finishing,
                  Max(budgetMs, CLOSE_OBSERVATION_TOLERANCE_MS + finishing)))
  }

  // ----- The controller

  function Ceil(x: real): (n: int)
    ensures x <= n as real < x + 1.0
  {
    -(-x).Floor
  }

  /** A timer of the queue: when it was set, and for how long. */
  datatype Timer = Timer(setAt: real, delayMs: nat)

  /** As long as a timer can be, or long enough for what comes first. */
  function NextDelay(remaining: real, untilWarning: real): (delay: nat)
    ensures 1 <= delay <= MAX_TIMER_DELAY_MS
    ensures delay == MAX_TIMER_DELAY_MS || delay as real >= remaining || delay as real >= untilWarning
  {
    Max(1, Min(Min(MAX_TIMER_DELAY_MS, Ceil(remaining)), Ceil(untilWarning)))
  }

  class Controller {
    const budgetMs: nat
    const timing: Option<Timing>
    const startedMono: real
    const deadlineMono: real
    var aborted: bool
    var wrapUpAborted: bool
    var deadlineReachedWall: Option<int>
    var timer: Option<nat>
    /** The clock's last reading, and the timer queue. */
    var now: real
    var armed: map<nat, Timer>
    var arms: nat
    ghost var disposed: bool
    /** No timer fired before it was due. */
    ghost var punctual: bool
    /** Of the timers that have fired: how many had the longest delay, and whether one waited for the warning. */
    ghost var longest: nat
    ghost var warned: nat

    function HardLimitMs(): nat {
      if timing.Some? then timing.value.hardLimitMs else budgetMs
    }

    /** The clock is past the point of the warning, or of the deadline. */
    ghost predicate WarningDue()
      reads this`now
    {
      timing.Some? && now - startedMono >= timing.value.warningAfterMs as real
    }

    ghost predicate DeadlineDue()
      reads this`now
    {
      now >= deadlineMono
    }

    /** What every instant keeps, whether or not a timer is pending. */
    ghost predicate Sound()
      reads this
    {
      && 0 < budgetMs && deadlineMono == startedMono + HardLimitMs() as real && startedMono <= now
      && (timing.Some? ==> timing.value.warningAfterMs <= timing.value.hardLimitMs) && 0 < HardLimitMs()
      && (aborted ==> DeadlineDue()) && (wrapUpAborted ==> WarningDue())
      && (deadlineReachedWall.Some? <==> aborted)
      && warned <= 1 && (warned == 1 ==> wrapUpAborted)
      && (punctual ==> arms <= 1 + longest + warned && MAX_TIMER_DELAY_MS * longest < HardLimitMs())
    }

    /** A pending timer reaches the deadline, or a warning not waited for before, or is as long as a timer can be. */
    ghost predicate Purposeful(t: Timer)
      reads this
    {
      && 1 <= t.delayMs <= MAX_TIMER_DELAY_MS && startedMono <= t.setAt <= now
      && (|| t.delayMs == MAX_TIMER_DELAY_MS
          || t.setAt + t.delayMs as real >= deadlineMono
          || (timing.Some? && warned == 0
              && t.setAt + t.delayMs as real - startedMono >= timing.value.warningAfterMs as real))
      && (punctual ==> (MAX_TIMER_DELAY_MS * longest) as real <= t.setAt - startedMono)
    }

    /** Between callbacks: a running attempt has exactly one timer pending, and a disposed one has none. */
    ghost predicate Valid()
      reads this
    {
      && Sound()
      && (!aborted && !disposed ==> timer.Some? && armed.Keys == {timer.value})
      && (disposed ==> armed == map[])
      && (armed == map[] || (timer.Some? && armed.Keys == {timer.value} && Purposeful(armed[timer.value])))
    }

    /** What a step may change: each signal and the recorded time are set once, and not before their point. */
    twostate predicate Advances()
      reads this
    {
      && old(now) <= now
      && (old(aborted) ==> aborted && deadlineReachedWall == old(deadlineReachedWall))
      && (old(wrapUpAborted) ==> wrapUpAborted)
      && (aborted && !old(aborted) ==> DeadlineDue())
      && (wrapUpAborted && !old(wrapUpAborted) ==> WarningDue())
    }

    method MonotonicNow() returns (t: real)
      modifies this`now
      ensures old(now) <= t == now
    {
      t := *;
      if t < now { t := now; }
      now := t;
    }

    method WallNow() returns (t: int)
    {
      t := *;
    }

    constructor (budgetMs: nat, wrapUp: bool, start: real)
      requires IsPositiveSafeInteger(budgetMs)
      ensures Valid() && !disposed && punctual && this.budgetMs == budgetMs && this.startedMono == start
      ensures timing == if wrapUp then StageWrapUpTiming(budgetMs) else None
    {
      this.budgetMs := budgetMs;
      var timing := if wrapUp then StageWrapUpTiming(budgetMs) else None;
      this.timing := timing;
      this.startedMono, this.deadlineMono := start,
        start + (if timing.Some? then timing.value.hardLimitMs else budgetMs) as real;
      aborted, wrapUpAborted, deadlineReachedWall, timer, now, armed, arms := false, false, None, None, start, map[], 0;
      disposed, punctual, longest, warned := false, true, 0, 0;
      new;
      ScheduleDeadlineCheck(0, 0);
    }

    method RemainingMs() returns (ms: real)
      modifies this`now
      ensures old(now) <= now && ms == if now < deadlineMono then deadlineMono - now else 0.0
    {
      var t := MonotonicNow();
      ms := if deadlineMono - t < 0.0 then 0.0 else deadlineMono - t;
    }

    method ObserveWrapUp()
      requires Sound()
      modifies this`now, this`wrapUpAborted
      ensures Sound() && Advances()
      ensures timing.Some? && old(WarningDue()) ==> wrapUpAborted
      ensures timing.None? ==> wrapUpAborted == old(wrapUpAborted)
    {
      if timing.Some? && !wrapUpAborted {
        var t := MonotonicNow();
        if t - startedMono >= timing.value.warningAfterMs as real { wrapUpAborted := true; }
      }
    }

    method AbortAtDeadline()
      requires Sound() && DeadlineDue()
      modifies this`aborted, this`deadlineReachedWall
      ensures Sound() && aborted && Advances()
    {
      if aborted { return; }
      var wall := WallNow();
      deadlineReachedWall, aborted := Some(wall), true;
    }

    /** Give the signals that are due, and otherwise set the one timer. */
    method ScheduleDeadlineCheck(ghost moreLongest: nat, ghost moreWarned: nat)
      requires Sound() && !disposed && armed == map[]
      requires warned + moreWarned <= 1 && (moreWarned == 1 ==> wrapUpAborted)
      requires punctual ==> arms <= longest + moreLongest + warned + moreWarned
      requires punctual ==> (MAX_TIMER_DELAY_MS * (longest + moreLongest)) as real <= now - startedMono
      modifies this
      ensures Valid() && Advances() && disposed == old(disposed) && punctual == old(punctual)
    {
      hide NextDelay;
      ObserveWrapUp();
      var remaining := RemainingMs();
      if remaining <= 0.0 {
        AbortAtDeadline();
        return;
      }
      var untilWarning := remaining;
      if timing.Some? && !wrapUpAborted {
        var t := MonotonicNow();
        untilWarning := timing.value.warningAfterMs as real - (t - startedMono);
      }
      SetTimer(NextDelay(remaining, untilWarning), moreLongest, moreWarned);
    }

    /** `setTimeout`, for a delay that is long enough. */
    method SetTimer(delay: nat, ghost moreLongest: nat, ghost moreWarned: nat)
      requires Sound() && !disposed && armed == map[] && 1 <= delay <= MAX_TIMER_DELAY_MS
      requires warned + moreWarned <= 1 && (moreWarned == 1 ==> wrapUpAborted)
      requires punctual ==> arms <= longest + moreLongest + warned + moreWarned
      requires punctual ==> (MAX_TIMER_DELAY_MS * (longest + moreLongest)) as real <= now - startedMono
      requires punctual ==> MAX_TIMER_DELAY_MS * (longest + moreLongest) < HardLimitMs()
      requires || delay == MAX_TIMER_DELAY_MS || now + delay as real >= deadlineMono
               || (timing.Some? && warned + moreWarned == 0
                   && now + delay as real - startedMono >= timing.value.warningAfterMs as real)
      modifies this
      ensures Valid() && Advances() && disposed == old(disposed) && punctual == old(punctual)
    {
      longest, warned := longest + moreLongest, warned + moreWarned;
      var setAt := MonotonicNow();
      timer, armed, arms := Some(arms), map[arms := Timer(setAt, delay)], arms + 1;
    }

    /** The callback of a pending timer, run at some time after it was set. */
    method FireTimer(handle: nat) returns (ghost firedAt: real)
      requires Valid() && handle in armed
      modifies this
      ensures Valid() && Advances() && disposed == old(disposed)
      ensures old(now) <= firedAt <= now
      ensures punctual <==> old(punctual) && firedAt >= old(armed)[handle].setAt + old(armed)[handle].delayMs as real
    {
      ghost var t := armed[handle];
      armed := map[];
      firedAt := MonotonicNow();
      punctual := punctual && firedAt >= t.setAt + t.delayMs as real;
      ObserveWrapUp();
      var remaining := RemainingMs();
      if remaining > 0.0 {
        ghost var wasLongest := punctual && t.delayMs == MAX_TIMER_DELAY_MS;
        ScheduleDeadlineCheck(if wasLongest then 1 else 0, if punctual && !wasLongest then 1 else 0);
      } else {
        AbortAtDeadline();
      }
    }

    /** `observeSettlement`: expiry is seen even when the timer was starved. */
    method ObserveSettlement() returns (expired: bool)
      requires Valid()
      modifies this
      ensures Valid() && Advances() && expired == aborted && armed == old(armed) && disposed == old(disposed)
      ensures old(DeadlineDue()) ==> expired
    {
      ObserveWrapUp();
      if !aborted {
        var remaining := RemainingMs();
        if remaining <= 0.0 { AbortAtDeadline(); }
      }
      return aborted;
    }

    method Dispose()
      requires Valid()
      modifies this
      ensures Valid() && Advances() && disposed && armed == map[] && aborted == old(aborted)
              && wrapUpAborted == old(wrapUpAborted)
    {
      if timer.Some? { armed := armed - {timer.value}; }
      disposed := true;
    }

    /** If timers do not fire early, one attempt sets few of them: waiting ends. */
    lemma {:induction false} FewTimers()
      requires Valid() && punctual
      ensures arms <= 2 + (HardLimitMs() - 1) / MAX_TIMER_DELAY_MS
    {
      var q := (HardLimitMs() - 1) / MAX_TIMER_DELAY_MS;
      assert HardLimitMs() - 1 < MAX_TIMER_DELAY_MS * (q + 1);
      assert MAX_TIMER_DELAY_MS * longest <= HardLimitMs() - 1;
      assert longest <= q;
    }
  }

  /** An attempt gets a controller exactly for a positive safe budget. */
  method StartAttempt(budgetMs: int, wrapUp: bool, start: real) returns (c: Controller?)
    ensures c != null <==> IsPositiveSafeInteger(budgetMs)
    ensures c != null ==> fresh(c) && c.Valid() && c.budgetMs == budgetMs
  {
    if !IsPositiveSafeInteger(budgetMs) { return null; }
    c := new Controller(budgetMs, wrapUp, start);
  }

  // ----- The budget of technical retries

  datatype RetryEvent = Prepare | Finished(effectiveMs: int) | TimedOut(effectiveMs: int) | Exhausted

  /** A refusal is the source's exception, after which the record is as it was. */
  datatype Outcome = Prepared(budgetMs: nat, doubled: bool) | Updated | Terminal | Refused

  datatype Budget = Budget(current: nat, previous: Option<nat>, increase: bool, attempts: nat)

  function NextTechnicalRetryBudget(previousMs: int): (next: Option<nat>)
    ensures next.Some? <==> IsPositiveSafeInteger(previousMs) && IsPositiveSafeInteger(previousMs * 2)
  {
    if IsPositiveSafeInteger(previousMs) && IsPositiveSafeInteger(previousMs * 2) then Some(previousMs * 2) else None
  }

  function Transition(s: Budget, e: RetryEvent): (Budget, Outcome) {
    match e
    case Finished(ms) =>
      if IsPositiveSafeInteger(ms) then (s.(previous := Some(ms), increase := false), Updated) else (s, Refused)
    case TimedOut(ms) =>
      if IsPositiveSafeInteger(ms) then (s.(previous := Some(ms), increase := true), Updated) else (s, Refused)
    case Exhausted =>
      if s.increase then (s.(increase := false), Terminal) else (s, Refused)
    case Prepare =>
      if s.attempts == 0 || !s.increase then (s.(attempts := s.attempts + 1), Prepared(s.current, false))
      else
        match NextTechnicalRetryBudget(if s.previous.Some? then s.previous.value else s.current)
        case None => (s, Refused)
        case Some(next) => (s.(current := next, increase := false, attempts := s.attempts + 1), Prepared(next, true))
  }

  class RetryBudget {
    var currentBudgetMs: nat
    var previousEffectiveBudgetMs: Option<nat>
    var increaseAfterTimeout: bool
    var attemptsStarted: nat

    /** `createTechnicalRetryBudgetState`: a new record, or a stored one. */
    constructor (initialBudgetMs: nat, current: Option<nat>, previous: Option<nat>, increase: bool, attempts: nat)
      ensures State() == Budget(if current.Some? then current.value else initialBudgetMs, previous, increase, attempts)
    {
      currentBudgetMs := if current.Some? then current.value else initialBudgetMs;
      previousEffectiveBudgetMs, increaseAfterTimeout, attemptsStarted := previous, increase, attempts;
    }

    ghost function State(): Budget
      reads this
    {
      Budget(currentBudgetMs, previousEffectiveBudgetMs, increaseAfterTimeout, attemptsStarted)
    }

    /** `transitionTechnicalRetryBudget` */
    method Apply(e: RetryEvent) returns (outcome: Outcome)
      modifies this
      ensures (State(), outcome) == Transition(old(State()), e)
    {
      if e.Finished? || e.TimedOut? {
        if !IsPositiveSafeInteger(e.effectiveMs) { return Refused; }
        previousEffectiveBudgetMs, increaseAfterTimeout := Some(e.effectiveMs), e.TimedOut?;
        return Updated;
      }
      if e.Exhausted? {
        if !increaseAfterTimeout { return Refused; }
        increaseAfterTimeout := false;
        return Terminal;
      }
      if attemptsStarted == 0 {
        attemptsStarted := attemptsStarted + 1;
        return Prepared(currentBudgetMs, false);
      }
      if increaseAfterTimeout {
        var previous := if previousEffectiveBudgetMs.Some? then previousEffectiveBudgetMs.value else currentBudgetMs;
        var next := NextTechnicalRetryBudget(previous);
        if next.None? { return Refused; }
        currentBudgetMs, increaseAfterTimeout, attemptsStarted := next.value, false, attemptsStarted + 1;
        return Prepared(next.value, true);
      }
      attemptsStarted := attemptsStarted + 1;
      return Prepared(currentBudgetMs, false);
    }
  }

  function AfterEvents(s: Budget, run: seq<RetryEvent>): Budget {
    if run == [] then s else Transition(AfterEvents(s, run[..|run| - 1]), run[|run| - 1]).0
  }

  function Pow2(n: nat): nat {
    if n == 0 then 1 else 2 * Pow2(n - 1)
  }

  /** Retries that directly follow a timeout. */
  function RetriesOfTimeouts(run: seq<RetryEvent>): nat {
    if |run| < 2 then 0
    else RetriesOfTimeouts(run[..|run| - 1]) + if run[|run| - 1].Prepare? && run[|run| - 2].TimedOut? then 1 else 0
  }

  /** What the next retry doubles, of a record whose last attempt timed out. */
  function Owed(s: Budget): Option<nat> {
    if !s.increase then None else if s.previous.Some? then s.previous else Some(s.current)
  }

  /** The budget that the last retry of a timeout doubled: what the attempt before it had in effect. */
  function LastDoubled(stored: Budget, run: seq<RetryEvent>): Option<int> {
    if run == [] then None
    else
      var earlier, last := run[..|run| - 1], run[|run| - 1];
      if !last.Prepare? then LastDoubled(stored, earlier)
      else if earlier == [] then if stored.attempts > 0 then Owed(stored) else None
      else if earlier[|earlier| - 1].TimedOut? then Some(earlier[|earlier| - 1].effectiveMs)
      else LastDoubled(stored, earlier)
  }

  /**
   From a new record or a stored one, each attempt is prepared, and finishes or times out after whatever
   budget was in effect, and each event is accepted.
   */
  ghost predicate Played(stored: Budget, run: seq<RetryEvent>) {
    forall n | 0 <= n < |run| :: PlayedAt(stored, run, n)
  }

  ghost predicate PlayedAt(stored: Budget, run: seq<RetryEvent>, n: nat)
    requires n < |run|
  {
    var s, e := AfterEvents(stored, run[..n]), run[n];
    && (if n == 0 then e.Prepare? || stored.attempts > 0 else e.Prepare? <==> !run[n - 1].Prepare?)
    && !e.Exhausted? && !Transition(s, e).1.Refused?
  }

  lemma {:induction false} PlayedSoFar(stored: Budget, run: seq<RetryEvent>)
    requires run != [] && Played(stored, run)
    ensures Played(stored, run[..|run| - 1]) && PlayedAt(stored, run, |run| - 1)
  {
    var earlier := run[..|run| - 1];
    forall n | 0 <= n < |earlier| ensures PlayedAt(stored, earlier, n) {
      assert PlayedAt(stored, run, n) && run[..n] == earlier[..n];
    }
  }

  /**
   The budget in force is the one at first until a timeout is retried, and from then on twice what
   the last such attempt had in effect; and a retry of a timeout is refused exactly if the double
   is no safe integer.
   */
  lemma {:induction false} RetryDoublesWhatTimedOut(stored: Budget, run: seq<RetryEvent>)
    requires Played(stored, run)
    ensures var s := AfterEvents(stored, run);
            && s.current == (match LastDoubled(stored, run) case None => stored.current case Some(ms) => 2 * ms)
            && (s.attempts == 0 <==> stored.attempts == 0 && run == [])
            && Owed(s) == (if run == [] || (|run| == 1 && stored.attempts == 0) then Owed(stored)
                           else match run[|run| - 1] case TimedOut(ms) => Some(ms) case _ => None)
            && (s.attempts > 0 && Owed(s).Some? ==>
                  (Transition(s, Prepare).1.Refused? <==>
                     !IsPositiveSafeInteger(Owed(s).value) || !IsPositiveSafeInteger(2 * Owed(s).value)))
            && (run != [] && (run[|run| - 1].Finished? || run[|run| - 1].TimedOut?) ==>
                  s.previous == Some(run[|run| - 1].effectiveMs))
  {
    if run != [] {
      PlayedSoFar(stored, run);
      RetryDoublesWhatTimedOut(stored, run[..|run| - 1]);
    }
  }

  /** Every attempt had the budget in effect that was prepared for it. */
  ghost predicate WhollyUsed(initial: nat, run: seq<RetryEvent>) {
    forall n | 0 <= n < |run| && (run[n].Finished? || run[n].TimedOut?) ::
      run[n].effectiveMs == AfterEvents(Budget(initial, None, false, 0), run[..n]).current
  }

  lemma {:induction false} WhollyUsedSoFar(initial: nat, run: seq<RetryEvent>)
    requires run != [] && WhollyUsed(initial, run)
    ensures WhollyUsed(initial, run[..|run| - 1])
  {
    var earlier := run[..|run| - 1];
    assert forall n | 0 <= n < |earlier| :: run[..n] == earlier[..n];
  }

  /**
   If those are the budgets prepared, the budget has doubled once for each retry of a timeout,
   whatever time has passed.
   */
  lemma {:induction false} BudgetDoublesPerTimeout(initial: nat, run: seq<RetryEvent>)
    requires Played(Budget(initial, None, false, 0), run) && WhollyUsed(initial, run)
    ensures var s := AfterEvents(Budget(initial, None, false, 0), run);
            && s.current == initial * Pow2(RetriesOfTimeouts(run))
            && (run != [] && !run[|run| - 1].Prepare? ==> s.previous == Some(s.current))
  {
    if run != [] {
      PlayedSoFar(Budget(initial, None, false, 0), run);
      WhollyUsedSoFar(initial, run);
      BudgetDoublesPerTimeout(initial, run[..|run| - 1]);
      RetryDoublesWhatTimedOut(Budget(initial, None, false, 0), run[..|run| - 1]);
      if |run| > 1 { DoubledOnce(initial, RetriesOfTimeouts(run[..|run| - 1])); }
    }
  }

  lemma {:induction false} DoubledOnce(initial: nat, n: nat)
    ensures initial * Pow2(n + 1) == 2 * (initial * Pow2(n))
  {
  }
}
