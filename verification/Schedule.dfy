// Drift-free deadlines in 64-bit milliseconds.

module Schedule {
  import opened Basics

  datatype MonitorError =
    | InvalidCondition
    | InvalidLifetime
    | InvalidSchedule
    | MissingCheckSchedule
    | UnexpectedCheckSchedule
    | InvalidMonitor
    | InvalidState
    | InvalidClock
    | InvalidPattern
    | InvalidEventId
    | CounterOverflow
    | DeadlineOverflow
    | IdExhausted

  const MINIMUM_SCHEDULE_MS: nat := 10
  const MAXIMUM_SCHEDULE_MS: nat := 24 * 60 * 60 * 1_000
  const MAXIMUM_LIFETIME_MS: nat := 365 * 24 * 60 * 60 * 1_000

  predicate ValidSchedule(intervalMs: U64) {
    MINIMUM_SCHEDULE_MS <= intervalMs <= MAXIMUM_SCHEDULE_MS
  }

  predicate FitsI64(x: int) {
    MIN_I64 <= x <= MAX_I64
  }

  function Deadline(nowMs: I64, durationMs: U64): Result<I64, MonitorError> {
    if durationMs > MAX_I64 || !FitsI64(nowMs + durationMs) then Err(DeadlineOverflow)
    else Ok(nowMs + durationMs)
  }

  /**
   * The next deadline. The program adds the one step unchecked, so this is its result wherever
   * `StepCountFits`.
   */
  function AdvanceDeadline(current: I64, intervalMs: U64, nowMs: I64): Result<I64, MonitorError> {
    if intervalMs > MAX_I64 then Err(DeadlineOverflow)
    else if intervalMs == 0 then Err(InvalidSchedule)
    else if current > nowMs then Ok(current)
    else if !FitsI64(nowMs - current) then Err(DeadlineOverflow)
    else
      var steps := (nowMs - current) / intervalMs + 1;
      if !FitsI64(steps * intervalMs) || !FitsI64(current + steps * intervalMs) then Err(DeadlineOverflow)
      else Ok(current + steps * intervalMs)
  }

  /** The number of steps an advance computes is an i64. */
  predicate StepCountFits(current: I64, intervalMs: U64, nowMs: I64)
    requires intervalMs > 0
  {
    FitsI64((nowMs - current) / intervalMs + 1)
  }

  /**
   * For a due deadline whose distance is an i64, only an interval of one millisecond and the longest
   * distance overflow the step count; no schedule that passes validation does.
   */
  lemma StepCountFitsExactlyWhen(current: I64, intervalMs: U64, nowMs: I64)
    requires current <= nowMs && FitsI64(nowMs - current) && intervalMs > 0
    ensures StepCountFits(current, intervalMs, nowMs) <==> !(intervalMs == 1 && nowMs - current == MAX_I64)
    ensures ValidSchedule(intervalMs) ==> StepCountFits(current, intervalMs, nowMs)
  {
    var elapsed: int := nowMs - current;
    if intervalMs > 1 {
      AtMostHalf(elapsed, intervalMs);
    }
  }

  lemma AtMostHalf(elapsed: int, interval: int)
    requires 0 <= elapsed && 2 <= interval
    ensures 0 <= elapsed / interval && elapsed / interval * 2 <= elapsed
  {
    var whole := elapsed / interval;
    assert whole * interval <= elapsed;
    assert whole * (interval - 2) >= 0;
  }

  /** `tick` is one of current, current + interval, current + 2 * interval, ... */
  ghost predicate OnLattice(current: int, interval: int, tick: int) {
    exists steps: nat :: tick == Tick(current, interval, steps)
  }

  function Tick(current: int, interval: int, steps: nat): int {
    current + steps * interval
  }

  /** The first tick strictly after `now`. */
  ghost predicate FirstTickAfter(current: int, interval: int, now: int, tick: int) {
    && OnLattice(current, interval, tick)
    && now < tick
    && forall steps: nat :: now < Tick(current, interval, steps) ==> tick <= Tick(current, interval, steps)
  }

  lemma StepsAreMinimal(elapsed: int, interval: int, steps: nat)
    requires 0 <= elapsed && 0 < interval && elapsed < steps * interval
    ensures (elapsed / interval + 1) * interval <= steps * interval
  {
    var whole := elapsed / interval;
    assert steps <= whole ==> (whole - steps) * interval >= 0;
    assert steps > whole ==> (steps - whole - 1) * interval >= 0;
  }

  /** The unbounded value the 64-bit computation aims at. */
  function TrueAdvance(current: int, interval: int, now: int): (tick: int)
    requires 0 < interval
  {
    if current > now then current else Tick(current, interval, (now - current) / interval + 1)
  }

  lemma TrueAdvanceIsFirstTick(current: int, interval: int, now: int)
    requires 0 < interval
    ensures FirstTickAfter(current, interval, now, TrueAdvance(current, interval, now))
  {
    assert current == Tick(current, interval, 0);
    if current <= now {
      var elapsed := now - current;
      assert elapsed < (elapsed / interval + 1) * interval;
      forall steps: nat | now < Tick(current, interval, steps)
        ensures TrueAdvance(current, interval, now) <= Tick(current, interval, steps)
      {
        StepsAreMinimal(elapsed, interval, steps);
      }
    } else {
      assert forall steps: nat :: Tick(current, interval, steps) >= current;
    }
  }

  /**
   * From nonnegative clocks and a positive interval, the next deadline is the first tick after now,
   * and the computation overflows exactly when that tick (or the interval) is not an i64. Left aside
   * is the one input whose step count overflows.
   */
  lemma AdvanceFindsFirstTick(current: I64, intervalMs: U64, nowMs: I64)
    requires 0 <= current && 0 <= nowMs && 0 < intervalMs
    requires current <= nowMs ==> StepCountFits(current, intervalMs, nowMs)
    ensures exists tick :: FirstTickAfter(current, intervalMs, nowMs, tick)
    ensures forall tick :: FirstTickAfter(current, intervalMs, nowMs, tick) ==>
              AdvanceDeadline(current, intervalMs, nowMs) ==
              if intervalMs <= MAX_I64 && tick <= MAX_I64 then Ok(tick) else Err(DeadlineOverflow)
  {
    TrueAdvanceIsFirstTick(current, intervalMs, nowMs);
    var first := TrueAdvance(current, intervalMs, nowMs);
    forall tick | FirstTickAfter(current, intervalMs, nowMs, tick)
      ensures tick == first
    {
      var a: nat :| tick == Tick(current, intervalMs, a);
      var b: nat :| first == Tick(current, intervalMs, b);
    }
  }

  /** Advancing a due deadline skips at least one whole interval. */
  lemma AdvanceSkipsAnInterval(current: I64, intervalMs: U64, nowMs: I64)
    requires current <= nowMs
    requires AdvanceDeadline(current, intervalMs, nowMs).Ok?
    ensures AdvanceDeadline(current, intervalMs, nowMs).value >= current + intervalMs
    ensures AdvanceDeadline(current, intervalMs, nowMs).value > nowMs
  {
    var elapsed: int := nowMs - current;
    assert elapsed < (elapsed / intervalMs + 1) * intervalMs;
    assert (elapsed / intervalMs) * intervalMs >= 0;
  }
}
