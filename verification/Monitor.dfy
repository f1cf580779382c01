// The executor-neutral monitor: definitions, runtime state and its transitions.

module Monitors {
  import opened Basics
  import opened BitWords
  import opened Numerals
  import opened Schedule
  import M = Matcher

  const MAXIMUM_MONITOR_ID_BYTES: nat := 128
  const MAXIMUM_AUTHORITY_TEXT_BYTES: nat := 4_096
  const MAXIMUM_COMMAND_BYTES: nat := 64 * 1_024

  datatype Signal = Hangup | Interrupt | Quit | Terminate | Kill

  datatype Condition =
    | ProcessExit
    | ExitCode(exitCode: int)
    | SignalIs(signal: Signal)
    | OutputContains(pattern: Bytes)
    | OutputMatches(pattern: Bytes)
    | OutputQuiet(durationMs: U64)
    | ScreenMatches(pattern: Bytes)
    | TcpReady(host: Bytes, port: nat)
    | HttpReady(url: Bytes)
    | PathExists(path: Bytes)
    | PathChanged(path: Bytes)
    | PathSize(path: Bytes, minimumBytes: U64)
    | CustomProbe(command: Bytes, cwd: Bytes)
  {
    predicate RequiresPolling() {
      TcpReady? || HttpReady? || PathExists? || PathChanged? || PathSize? || CustomProbe?
    }

    predicate IsGapSensitive() {
      OutputContains? || OutputMatches? || OutputQuiet? || ScreenMatches?
    }

    /** The two conditions decided by the bytes of the output stream alone. */
    predicate ReadsOutput() {
      OutputContains? || OutputMatches?
    }

    predicate IsExitCondition() {
      ProcessExit? || ExitCode? || SignalIs?
    }

    predicate Valid() {
      match this
      case ProcessExit | ExitCode(_) | SignalIs(_) => true
      case OutputContains(pattern) => ValidText(pattern, M.MAXIMUM_PATTERN_BYTES)
      case OutputMatches(pattern) => ValidText(pattern, M.MAXIMUM_PATTERN_BYTES)
      case ScreenMatches(pattern) => ValidText(pattern, M.MAXIMUM_PATTERN_BYTES)
      case OutputQuiet(durationMs) => ValidSchedule(durationMs)
      case TcpReady(host, port) => ValidText(host, MAXIMUM_AUTHORITY_TEXT_BYTES) && port != 0
      case HttpReady(url) => ValidText(url, MAXIMUM_AUTHORITY_TEXT_BYTES)
      case PathExists(path) => ValidText(path, MAXIMUM_AUTHORITY_TEXT_BYTES)
      case PathChanged(path) => ValidText(path, MAXIMUM_AUTHORITY_TEXT_BYTES)
      case PathSize(path, _) => ValidText(path, MAXIMUM_AUTHORITY_TEXT_BYTES)
      case CustomProbe(command, cwd) => ValidText(command, MAXIMUM_COMMAND_BYTES)
                                        && ValidText(cwd, MAXIMUM_AUTHORITY_TEXT_BYTES)
    }
  }

  datatype Notify =
    | OnMatch
    | OnStateChange
    | OnExit
    | EveryCheck
    | EveryNChecks(count: nat)
    | Interval(intervalMs: U64)

  datatype Lifetime = UntilMatch | UntilSessionEnd | Duration(durationMs: U64)

  datatype Definition = Definition(condition: Condition, checkIntervalMs: Option<U64>, notify: Notify,
      lifetime: Lifetime) {
    function Validate(): Option<MonitorError> {
      if !condition.Valid() then Some(InvalidCondition)
      else if notify.EveryNChecks? && (notify.count == 0 || notify.count > 1_000_000) then Some(InvalidSchedule)
      else if notify.Interval? && !ValidSchedule(notify.intervalMs) then Some(InvalidSchedule)
      else if lifetime.Duration? && (lifetime.durationMs == 0 || lifetime.durationMs > MAXIMUM_LIFETIME_MS)
          then Some(InvalidLifetime)
      else match (condition.RequiresPolling(), checkIntervalMs)
        case (true, Some(interval)) => if ValidSchedule(interval) then None else Some(InvalidSchedule)
        case (true, None) => Some(MissingCheckSchedule)
        case (false, Some(_)) => Some(UnexpectedCheckSchedule)
        case (false, None) => None
    }
  }

  datatype State = Active | Paused | Matched | Degraded

  datatype EventReason =
    | ConditionMatched
    | StateChanged
    | SessionExit
    | Check
    | IntervalElapsed
    | Expired
    | Removed
    | WasPaused
    | Resumed
    | Updated

  datatype Observation = CheckRun | OutputSeen | ScreenSeen | QuietElapsed | ExitSeen | SessionExitSeen

  datatype Runtime = Runtime(
    state: State,
    generation: U64,
    createdAtMs: I64,
    lifetimeDeadlineMs: Option<I64>,
    nextCheckMs: Option<I64>,
    nextNotificationMs: Option<I64>,
    checkCount: U64,
    notificationCount: U64,
    lastEventId: U64,
    lastEventReason: Option<EventReason>,
    conditionMatched: bool,
    matcherStates: Words)

  datatype Decision = Decision(notify: Option<EventReason>, remove: bool, stateChanged: bool)

  const NO_DECISION := Decision(None, false, false)

  predicate ValidText(value: Bytes, maximum: nat) {
    0 < |value| <= maximum && 0 !in value
  }

  predicate ValidMonitorId(id: Bytes) {
    ValidText(id, MAXIMUM_MONITOR_ID_BYTES)
  }

  /** A transition: the changed monitor and what the caller is told, or an error. */
  type Step<T> = Result<(Monitor, T), MonitorError>

  datatype Monitor = Monitor(monitorId: Bytes, definition: Definition, runtime: Runtime) {
    predicate Inert() {
      runtime.state == Paused || runtime.state == Degraded
    }

    predicate ExpiredAt(nowMs: I64) {
      runtime.lifetimeDeadlineMs.Some? && nowMs >= runtime.lifetimeDeadlineMs.value
    }

    /** Awake, and within its lifetime. */
    predicate Listens(nowMs: I64) {
      !Inert() && !ExpiredAt(nowMs)
    }

    function StateNotification(reason: EventReason): Option<EventReason> {
      if definition.notify == OnStateChange then Some(reason) else None
    }

    function WithState(state: State): Monitor {
      this.(runtime := runtime.(state := state))
    }

    function WithNextCheck(due: I64): Monitor {
      this.(runtime := runtime.(nextCheckMs := Some(due)))
    }

    function WithNextNotification(due: I64): Monitor {
      this.(runtime := runtime.(nextNotificationMs := Some(due)))
    }

    /** Reschedules the next check after an observation, when the observation is that check. */
    function Rescheduled(observation: Observation, nowMs: I64): Result<Monitor, MonitorError> {
      if observation == CheckRun && definition.checkIntervalMs.Some? then
        var due := if runtime.nextCheckMs.Some? then runtime.nextCheckMs.value else nowMs;
        match AdvanceDeadline(due, definition.checkIntervalMs.value, nowMs)
        case Err(error) => Err(error)
        case Ok(next) => Ok(WithNextCheck(next))
      else if observation == QuietElapsed && definition.condition.OutputQuiet? then
        match Deadline(nowMs, definition.condition.durationMs)
        case Err(error) => Err(error)
        case Ok(next) => Ok(WithNextCheck(next))
      else Ok(this)
    }

    function CheckNotification(newlyMatched: bool): Option<EventReason> {
      match definition.notify
      case OnMatch => if newlyMatched then Some(ConditionMatched) else None
      case OnStateChange => if newlyMatched then Some(StateChanged) else None
      case EveryCheck => Some(Check)
      case EveryNChecks(count) =>
        if (if count == 0 then runtime.checkCount == 0 else runtime.checkCount % count == 0) then Some(Check) else None
      case OnExit | Interval(_) => None
    }

    /** The match at its edge, and what to say and do about it. */
    function Noticed(conditionMatches: bool): (Monitor, Decision) {
      var newlyMatched := conditionMatches && !runtime.conditionMatched;
      var after := if newlyMatched
          then this.(runtime := runtime.(conditionMatched := true, state := Matched)) else this;
      (after, Decision(after.CheckNotification(newlyMatched), newlyMatched && definition.lifetime == UntilMatch,
                       newlyMatched))
    }

    /** One more check of a listening monitor's condition. */
    function Checked(observation: Observation, conditionMatches: bool, nowMs: I64): Step<Decision> {
      if runtime.checkCount == MAX_U64 then Err(CounterOverflow)
      else
        match this.(runtime := runtime.(checkCount := runtime.checkCount + 1)).Rescheduled(observation, nowMs)
        case Err(error) => Err(error)
        case Ok(checked) => Ok(checked.Noticed(conditionMatches))
    }

    function Observe(observation: Observation, conditionMatches: bool, nowMs: I64): Step<Decision> {
      if Inert() then Ok((this, NO_DECISION))
      else if nowMs < 0 then Err(InvalidClock)
      else if ExpiredAt(nowMs) then Ok((this, Decision(StateNotification(Expired), true, true)))
      else if observation == SessionExitSeen then
        Ok((this,
            Decision(if definition.notify == OnExit then Some(SessionExit)
            else StateNotification(SessionExit), true, true)))
      else Checked(observation, conditionMatches, nowMs)
    }

    function TimerDecision(nowMs: I64): Step<Decision> {
      if nowMs < 0 then Err(InvalidClock)
      else if ExpiredAt(nowMs) then Ok((this, Decision(StateNotification(Expired), true, true)))
      else if Inert() || !definition.notify.Interval? then Ok((this, NO_DECISION))
      else match runtime.nextNotificationMs
        case None => Err(InvalidState)
        case Some(due) =>
          if nowMs < due then Ok((this, NO_DECISION))
          else match AdvanceDeadline(due, definition.notify.intervalMs, nowMs)
            case Err(error) => Err(error)
            case Ok(next) => Ok((WithNextNotification(next), Decision(Some(IntervalElapsed), false, false)))
    }

    function NoteOutput(nowMs: I64): Result<Monitor, MonitorError> {
      if !definition.condition.OutputQuiet? then Ok(this)
      else match Deadline(nowMs, definition.condition.durationMs)
        case Err(error) => Err(error)
        case Ok(due) => Ok(WithNextCheck(due))
    }

    predicate QuietDue(nowMs: I64) {
      runtime.state != Paused && definition.condition.OutputQuiet? && runtime.nextCheckMs.Some?
          && nowMs >= runtime.nextCheckMs.value
    }

    predicate PollingDue(nowMs: I64) {
      !Inert() && definition.condition.RequiresPolling() && runtime.nextCheckMs.Some?
          && nowMs >= runtime.nextCheckMs.value
    }

    function Pause(): (Monitor, bool) {
      if Inert() then (this, false) else (WithState(Paused), true)
    }

    function Resume(nowMs: I64): Step<bool> {
      if runtime.state != Paused then Ok((this, false))
      else
        var woken := WithState(if runtime.conditionMatched then Matched else Active);
        var checked :=
          if definition.checkIntervalMs.Some? then
            (match Deadline(nowMs, definition.checkIntervalMs.value)
             case Err(error) => Err(error)
             case Ok(due) => Ok(woken.WithNextCheck(due)))
          else woken.NoteOutput(nowMs);
        match checked
        case Err(error) => Err(error)
        case Ok(monitor) =>
          if !definition.notify.Interval? then Ok((monitor, true))
          else match Deadline(nowMs, definition.notify.intervalMs)
            case Err(error) => Err(error)
            case Ok(due) => Ok((monitor.WithNextNotification(due), true))
    }

    function BumpGeneration(): Result<Monitor, MonitorError> {
      if runtime.generation == MAX_U64 then Err(CounterOverflow)
      else Ok(this.(runtime := runtime.(generation := runtime.generation + 1)))
    }

    function DegradeForRawGap(): Step<bool> {
      if !definition.condition.IsGapSensitive() || runtime.state == Degraded then Ok((this, false))
      else
        var degraded := this.(runtime := runtime.(
          state := Degraded, matcherStates := ZERO_WORDS, nextCheckMs := None, nextNotificationMs := None));
        match degraded.BumpGeneration()
        case Err(error) => Err(error)
        case Ok(bumped) => Ok((bumped, true))
    }

    function NoteNotification(eventId: U64, reason: EventReason): Result<Monitor, MonitorError> {
      if eventId == 0 || eventId <= runtime.lastEventId then Err(InvalidEventId)
      else if runtime.notificationCount == MAX_U64 then Err(CounterOverflow)
      else Ok(this.(runtime := runtime.(
        lastEventId := eventId, lastEventReason := Some(reason), notificationCount := runtime.notificationCount + 1)))
    }

    function FeedOutput(bytes: Bytes): Step<bool> {
      if !definition.condition.ReadsOutput() then Ok((this, false))
      else match M.Feed(definition.condition.pattern, definition.condition.OutputMatches?, runtime.matcherStates, bytes)
        case Err(_) => Err(InvalidPattern)
        case Ok(scanned) => Ok((this.(runtime := runtime.(matcherStates := scanned.words)), scanned.matched))
    }

    function Validate(): Option<MonitorError> {
      if !ValidMonitorId(monitorId) then Some(InvalidMonitor)
      else if definition.Validate().Some? then definition.Validate()
      else if || runtime.generation == 0
              || runtime.createdAtMs < 0
              || (runtime.lastEventId > 0 && runtime.notificationCount == 0)
              || (runtime.lastEventId == 0) != runtime.lastEventReason.None?
              || (runtime.conditionMatched && runtime.state == Active) then Some(InvalidState)
      else if runtime.lifetimeDeadlineMs.Some?
          && runtime.lifetimeDeadlineMs.value <= runtime.createdAtMs then Some(InvalidState)
      else None
    }
  }

  function OptionalDeadline(nowMs: I64, durationMs: Option<U64>): Result<Option<I64>, MonitorError> {
    match durationMs
    case None => Ok(None)
    case Some(duration) =>
      match Deadline(nowMs, duration)
      case Err(error) => Err(error)
      case Ok(due) => Ok(Some(due))
  }

  function FirstCheckDelay(definition: Definition): Option<U64> {
    if definition.checkIntervalMs.Some? then definition.checkIntervalMs
    else if definition.condition.OutputQuiet? then Some(definition.condition.durationMs)
    else None
  }

  function NewMonitor(monitorId: Bytes, definition: Definition, nowMs: I64): Result<Monitor, MonitorError> {
    if definition.Validate().Some? then Err(definition.Validate().value)
    else if nowMs < 0 then Err(InvalidClock)
    else if !ValidMonitorId(monitorId) then Err(InvalidMonitor)
    else match OptionalDeadline(nowMs, if definition.lifetime.Duration?
        then Some(definition.lifetime.durationMs) else None)
      case Err(error) => Err(error)
      case Ok(lifetimeDeadlineMs) =>
        match OptionalDeadline(nowMs, FirstCheckDelay(definition))
        case Err(error) => Err(error)
        case Ok(nextCheckMs) =>
          match OptionalDeadline(nowMs, if definition.notify.Interval?
              then Some(definition.notify.intervalMs) else None)
          case Err(error) => Err(error)
          case Ok(nextNotificationMs) =>
            Ok(Monitor(monitorId, definition,
                       Runtime(Active, 1, nowMs, lifetimeDeadlineMs, nextCheckMs, nextNotificationMs, 0, 0, 0, None,
                           false, ZERO_WORDS)))
  }

  // Generated identifiers.

  const MONITOR_PREFIX: Bytes := [109, 111, 110, 105, 116, 111, 114, 45]

  function StableId(sequence: U64): Result<Bytes, MonitorError> {
    if sequence == 0 then Err(IdExhausted) else Ok(MONITOR_PREFIX + Decimal(sequence))
  }

  /** Distinct sequence numbers get distinct identifiers, and every identifier is a valid one. */
  lemma StableIdIsFaithful(m: U64, n: U64)
    requires 0 < m && 0 < n
    ensures StableId(m) == StableId(n) <==> m == n
    ensures ValidMonitorId(StableId(m).value)
  {
    assert StableId(m).value[|MONITOR_PREFIX|..] == Decimal(m);
    assert StableId(n).value[|MONITOR_PREFIX|..] == Decimal(n);
    if StableId(m) == StableId(n) {
      DecimalIsInjective(m, n);
    }
    assert Pow10(5) == 100_000 && Pow10(10) == 10_000_000_000 && Pow10(15) == 1_000_000_000_000_000;
    assert Pow10(20) == 100_000_000_000_000_000_000;
    DecimalLength(m, 20);
  }

  /** A monitor borrowed mutably out of the set that owns it. */
  class MonitorCell {
    const monitorId: Bytes
    var definition: Definition
    var runtime: Runtime

    function Value(): Monitor
      reads this
    {
      Monitor(monitorId, definition, runtime)
    }

    constructor (monitor: Monitor)
      ensures Value() == monitor
    {
      monitorId := monitor.monitorId;
      definition := monitor.definition;
      runtime := monitor.runtime;
    }

    method Reschedule(observation: Observation, nowMs: I64) returns (refused: Option<MonitorError>)
      modifies this`runtime
      ensures match old(Value()).Rescheduled(observation, nowMs)
              case Err(error) => refused == Some(error)
              case Ok(after) => refused == None && Value() == after
    {
      if observation == CheckRun && definition.checkIntervalMs.Some? {
        var due := if runtime.nextCheckMs.Some? then runtime.nextCheckMs.value else nowMs;
        var next := AdvanceDeadline(due, definition.checkIntervalMs.value, nowMs);
        if next.Err? {
          return Some(next.error);
        }
        runtime := runtime.(nextCheckMs := Some(next.value));
      }
      if observation == QuietElapsed && definition.condition.OutputQuiet? {
        var next := Deadline(nowMs, definition.condition.durationMs);
        if next.Err? {
          return Some(next.error);
        }
        runtime := runtime.(nextCheckMs := Some(next.value));
      }
      refused := None;
    }

    method Notice(conditionMatches: bool) returns (decision: Decision)
      modifies this`runtime
      ensures (Value(), decision) == old(Value()).Noticed(conditionMatches)
    {
      var newlyMatched := conditionMatches && !runtime.conditionMatched;
      if newlyMatched {
        runtime := runtime.(conditionMatched := true);
        runtime := runtime.(state := Matched);
      }
      var notify := Value().CheckNotification(newlyMatched);
      decision := Decision(notify, newlyMatched && definition.lifetime == UntilMatch, newlyMatched);
    }

    method Check(observation: Observation, conditionMatches: bool, nowMs: I64)
      returns (result: Result<Decision, MonitorError>)
      modifies this`runtime
      ensures match old(Value()).Checked(observation, conditionMatches, nowMs)
              case Err(error) => result == Err(error)
              case Ok((after, decision)) => result == Ok(decision) && Value() == after
    {
      if runtime.checkCount == MAX_U64 {
        return Err(CounterOverflow);
      }
      runtime := runtime.(checkCount := runtime.checkCount + 1);
      var refused := Reschedule(observation, nowMs);
      if refused.Some? {
        return Err(refused.value);
      }
      var decision := Notice(conditionMatches);
      return Ok(decision);
    }

    method Observe(observation: Observation, conditionMatches: bool, nowMs: I64)
      returns (result: Result<Decision, MonitorError>)
      modifies this`runtime
      ensures match old(Value()).Observe(observation, conditionMatches, nowMs)
              case Err(error) => result == Err(error)
              case Ok((after, decision)) => result == Ok(decision) && Value() == after
    {
      if runtime.state == Paused || runtime.state == Degraded {
        return Ok(NO_DECISION);
      }
      if nowMs < 0 {
        return Err(InvalidClock);
      }
      if runtime.lifetimeDeadlineMs.Some? && nowMs >= runtime.lifetimeDeadlineMs.value {
        return Ok(Decision(Value().StateNotification(Expired), true, true));
      }
      if observation == SessionExitSeen {
        return Ok(Decision(if definition.notify == OnExit then Some(SessionExit)
            else Value().StateNotification(SessionExit), true, true));
      }
      result := Check(observation, conditionMatches, nowMs);
    }

    method TimerDecision(nowMs: I64) returns (result: Result<Decision, MonitorError>)
      modifies this`runtime
      ensures match old(Value()).TimerDecision(nowMs)
              case Err(error) => result == Err(error)
              case Ok((after, decision)) => result == Ok(decision) && Value() == after
    {
      if nowMs < 0 {
        return Err(InvalidClock);
      }
      if runtime.lifetimeDeadlineMs.Some? && nowMs >= runtime.lifetimeDeadlineMs.value {
        return Ok(Decision(Value().StateNotification(Expired), true, true));
      }
      if runtime.state == Paused || runtime.state == Degraded || !definition.notify.Interval? {
        return Ok(NO_DECISION);
      }
      if runtime.nextNotificationMs.None? {
        return Err(InvalidState);
      }
      var due := runtime.nextNotificationMs.value;
      if nowMs < due {
        return Ok(NO_DECISION);
      }
      var next := AdvanceDeadline(due, definition.notify.intervalMs, nowMs);
      if next.Err? {
        return Err(next.error);
      }
      runtime := runtime.(nextNotificationMs := Some(next.value));
      return Ok(Decision(Some(IntervalElapsed), false, false));
    }

    method NoteOutput(nowMs: I64) returns (result: Option<MonitorError>)
      modifies this`runtime
      ensures match old(Value()).NoteOutput(nowMs)
              case Err(error) => result == Some(error)
              case Ok(after) => result == None && Value() == after
    {
      if definition.condition.OutputQuiet? {
        var due := Deadline(nowMs, definition.condition.durationMs);
        if due.Err? {
          return Some(due.error);
        }
        runtime := runtime.(nextCheckMs := Some(due.value));
      }
      return None;
    }

    method Pause() returns (paused: bool)
      modifies this`runtime
      ensures (Value(), paused) == old(Value()).Pause()
    {
      if runtime.state == Paused || runtime.state == Degraded {
        return false;
      }
      runtime := runtime.(state := Paused);
      return true;
    }

    method Resume(nowMs: I64) returns (result: Result<bool, MonitorError>)
      modifies this`runtime
      ensures match old(Value()).Resume(nowMs)
              case Err(error) => result == Err(error)
              case Ok((after, resumed)) => result == Ok(resumed) && Value() == after
    {
      if runtime.state != Paused {
        return Ok(false);
      }
      runtime := runtime.(state := if runtime.conditionMatched then Matched else Active);
      if definition.checkIntervalMs.Some? {
        var due := Deadline(nowMs, definition.checkIntervalMs.value);
        if due.Err? {
          return Err(due.error);
        }
        runtime := runtime.(nextCheckMs := Some(due.value));
      } else if definition.condition.OutputQuiet? {
        var due := Deadline(nowMs, definition.condition.durationMs);
        if due.Err? {
          return Err(due.error);
        }
        runtime := runtime.(nextCheckMs := Some(due.value));
      }
      if definition.notify.Interval? {
        var due := Deadline(nowMs, definition.notify.intervalMs);
        if due.Err? {
          return Err(due.error);
        }
        runtime := runtime.(nextNotificationMs := Some(due.value));
      }
      return Ok(true);
    }

    method BumpGeneration() returns (result: Option<MonitorError>)
      modifies this`runtime
      ensures match old(Value()).BumpGeneration()
              case Err(error) => result == Some(error) && Value() == old(Value())
              case Ok(after) => result == None && Value() == after
    {
      if runtime.generation == MAX_U64 {
        return Some(CounterOverflow);
      }
      runtime := runtime.(generation := runtime.generation + 1);
      return None;
    }

    method DegradeForRawGap() returns (result: Result<bool, MonitorError>)
      modifies this`runtime
      ensures match old(Value()).DegradeForRawGap()
              case Err(error) => result == Err(error)
              case Ok((after, degraded)) => result == Ok(degraded) && Value() == after
    {
      if !definition.condition.IsGapSensitive() || runtime.state == Degraded {
        return Ok(false);
      }
      runtime := runtime.(state := Degraded);
      runtime := runtime.(matcherStates := ZERO_WORDS);
      runtime := runtime.(nextCheckMs := None);
      runtime := runtime.(nextNotificationMs := None);
      var bumped := BumpGeneration();
      return if bumped.Some? then Err(bumped.value) else Ok(true);
    }

    method NoteNotification(eventId: U64, reason: EventReason) returns (result: Option<MonitorError>)
      modifies this`runtime
      ensures match old(Value()).NoteNotification(eventId, reason)
              case Err(error) => result == Some(error)
              case Ok(after) => result == None && Value() == after
    {
      if eventId == 0 || eventId <= runtime.lastEventId {
        return Some(InvalidEventId);
      }
      runtime := runtime.(lastEventId := eventId);
      runtime := runtime.(lastEventReason := Some(reason));
      if runtime.notificationCount == MAX_U64 {
        return Some(CounterOverflow);
      }
      runtime := runtime.(notificationCount := runtime.notificationCount + 1);
      return None;
    }

    method FeedOutput(bytes: Bytes) returns (result: Result<bool, MonitorError>)
      modifies this`runtime
      ensures match old(Value()).FeedOutput(bytes)
              case Err(error) => result == Err(error)
              case Ok((after, matched)) => result == Ok(matched) && Value() == after
    {
      if !definition.condition.ReadsOutput() {
        return Ok(false);
      }
      var states := new bv64[PATTERN_WORDS](i requires 0 <= i < PATTERN_WORDS reads this => runtime.matcherStates[i]);
      assert states[..] == runtime.matcherStates;
      var matched := M.PatternFeed(definition.condition.pattern, definition.condition.OutputMatches?, states, bytes);
      runtime := runtime.(matcherStates := states[..]);
      return if matched.Err? then Err(InvalidPattern) else Ok(matched.value);
    }
  }
}
