// The persisted monitor set of one session: what each store operation does to it.

module MonitorSets {
  import opened Basics
  import opened Schedule
  import opened Monitors
  import M = Matcher

  const SCHEMA_VERSION: nat := 1
  const MAXIMUM_MONITORS: nat := 32
  const MAXIMUM_EVENTS: nat := 1_024

  datatype Lifecycle = Running | Exited | Lost | Closed

  datatype MonitorEvent = MonitorEvent(
    eventId: U64,
    monitorId: Bytes,
    reason: EventReason,
    lifecycle: Lifecycle,
    cursorSegment: U64,
    cursorOffset: U64,
    createdAtMs: I64)

  /** Where and when an event happens. */
  datatype Moment = Moment(lifecycle: Lifecycle, cursorOffset: U64, nowMs: I64)

  datatype EventLog = EventLog(
    nextEventId: U64,
    gapThrough: U64,
    acknowledgedThrough: U64,
    events: seq<MonitorEvent>)

  datatype MonitorSet = MonitorSet(
    schemaVersion: nat,
    sessionId: Bytes,
    nextMonitorId: U64,
    cursorOffset: U64,
    lastOutputAtMs: I64,
    lastLifecycle: Lifecycle,
    monitors: seq<Monitor>,
    log: EventLog)

  datatype ArgumentError =
    | BadOperation(error: MonitorError)
    | BadDefinition(error: MonitorError)
    | TooManyMonitors
    | MonitorNotFound
    | EffectsRefused
    | BadPageSize
    | BadAcknowledgement

  datatype Damage =
    | BadMetadata
    | BadMonitor(error: MonitorError)
    | BadEventSequence
    | EventIdsExhausted
    | MonitorIdsExhausted
    | GenerationExhausted
    | IndexInvalid
    | InitialSetExists
    | CursorInconsistent

  datatype StoreError = InvalidArguments(argument: ArgumentError) | Corrupt(damage: Damage)

  datatype TerminalObservation = TerminalObservation(
    lifecycle: Lifecycle,
    exitCode: Option<int>,
    signal: Option<Signal>,
    cursorStart: U64,
    cursorEnd: U64,
    rawGap: bool,
    output: Bytes,
    screenText: Option<Bytes>)

  // Session identifiers.

  /** "terminal-n-" and "terminal-t-", each followed by 32 hexadecimal digits. */
  const NATIVE_PREFIX: Bytes := [116, 101, 114, 109, 105, 110, 97, 108, 45, 110, 45]
  const TMUX_PREFIX: Bytes := [116, 101, 114, 109, 105, 110, 97, 108, 45, 116, 45]

  predicate IsHexDigit(byte: Byte) {
    48 <= byte <= 57 || 65 <= byte <= 70 || 97 <= byte <= 102
  }

  predicate ValidSessionId(id: Bytes) {
    && (NATIVE_PREFIX <= id || TMUX_PREFIX <= id)
    && |id| == 11 + 32
    && forall i | 11 <= i < |id| :: IsHexDigit(id[i])
  }

  // Validation, as on every load and every save.

  function FirstBadMonitor(monitors: seq<Monitor>): Option<MonitorError> {
    if monitors == [] then None
    else if monitors[0].Validate().Some? then monitors[0].Validate()
    else FirstBadMonitor(monitors[1..])
  }

  predicate WellFormedEvent(event: MonitorEvent) {
    event.monitorId != [] && event.cursorSegment != 0 && event.createdAtMs >= 0
  }

  predicate EventsAscend(events: seq<MonitorEvent>, previous: int, next: U64) {
    events == [] ||
    (&& previous < events[0].eventId < next
     && WellFormedEvent(events[0])
     && EventsAscend(events[1..], events[0].eventId, next))
  }

  function Validate(candidate: MonitorSet, expectedSessionId: Bytes): Option<Damage> {
    var log := candidate.log;
    if || candidate.schemaVersion != SCHEMA_VERSION
       || candidate.sessionId != expectedSessionId
       || !ValidSessionId(candidate.sessionId)
       || candidate.nextMonitorId == 0
       || log.nextEventId == 0
       || candidate.lastOutputAtMs < 0
       || log.acknowledgedThrough >= log.nextEventId
       || log.gapThrough >= log.nextEventId
       || |candidate.monitors| > MAXIMUM_MONITORS
       || |log.events| > MAXIMUM_EVENTS then Some(BadMetadata)
    else if FirstBadMonitor(candidate.monitors).Some? then Some(BadMonitor(FirstBadMonitor(candidate.monitors).value))
    else if !EventsAscend(log.events, Max(log.gapThrough, log.acknowledgedThrough), log.nextEventId)
        then Some(BadEventSequence)
    else None
  }

  function EmptySet(sessionId: Bytes, cursorOffset: U64, lifecycle: Lifecycle, nowMs: I64): MonitorSet {
    MonitorSet(SCHEMA_VERSION, sessionId, 1, cursorOffset, nowMs, lifecycle, [], EventLog(1, 0, 0, []))
  }

  // The event log.

  function Trim(log: EventLog): EventLog
    decreases |log.events|
  {
    if |log.events| <= MAXIMUM_EVENTS then log
    else Trim(log.(events := log.events[1..], gapThrough := Max(log.gapThrough, log.events[0].eventId)))
  }

  function EventFor(monitor: Monitor, eventId: U64, reason: EventReason, at: Moment): MonitorEvent {
    MonitorEvent(eventId, monitor.monitorId, reason, at.lifecycle, 1, at.cursorOffset, at.nowMs)
  }

  /** `push_event`, as it touches one monitor and the log. */
  function Emit(monitor: Monitor, log: EventLog, reason: EventReason, at: Moment): Result<(Monitor, EventLog), Damage> {
    if log.nextEventId == MAX_U64 then Err(EventIdsExhausted)
    else
      var noted :- monitor.NoteNotification(log.nextEventId, reason).MapError(e => BadMonitor(e));
      var event := EventFor(monitor, log.nextEventId, reason, at);
      Ok((noted, Trim(log.(nextEventId := log.nextEventId + 1, events := log.events + [event]))))
  }

  /** A monitor after a decision (None once removed), the log, and whether anything is worth saving. */
  datatype Visited = Visited(survivor: Option<Monitor>, log: EventLog, changed: bool)

  function ApplyDecision(monitor: Monitor, log: EventLog, decision: Decision, at: Moment): Result<Visited, Damage> {
    var (noted, grown) :- if decision.notify.Some? then Emit(monitor, log, decision.notify.value, at)
        else Ok((monitor, log));
    Ok(Visited(if decision.remove then None else Some(noted), grown, true))
  }

  // Evaluating one observation.

  datatype Phase = OutputPhase | TimerPhase

  function ScreenMatched(pattern: Bytes, screenText: Option<Bytes>): bool {
    screenText.Some? && M.PatternMatches(pattern, true, screenText.value) == Ok(true)
  }

  function VisitOutput(monitor: Monitor, log: EventLog, observation: TerminalObservation,
          at: Moment): Result<Visited, Damage> {
    if monitor.Inert() then Ok(Visited(Some(monitor), log, false))
    else match monitor.definition.condition
      case OutputQuiet(_) =>
        var noted :- monitor.NoteOutput(at.nowMs).MapError(e => BadMonitor(e));
        Ok(Visited(Some(noted), log, true))
      case OutputContains(_) | OutputMatches(_) =>
        var (fed, matched) :- monitor.FeedOutput(observation.output).MapError(e => BadMonitor(e));
        var (after, decision) :- fed.Observe(OutputSeen, matched, at.nowMs).MapError(e => BadMonitor(e));
        ApplyDecision(after, log, decision, at)
      case ScreenMatches(pattern) =>
        var (after, decision) :-
          monitor.Observe(ScreenSeen, ScreenMatched(pattern, observation.screenText),
              at.nowMs).MapError(e => BadMonitor(e));
        ApplyDecision(after, log, decision, at)
      case _ => Ok(Visited(Some(monitor), log, false))
  }

  function VisitTimer(monitor: Monitor, log: EventLog, at: Moment): Result<Visited, Damage> {
    var step := if monitor.QuietDue(at.nowMs) then monitor.Observe(QuietElapsed, true, at.nowMs)
        else monitor.TimerDecision(at.nowMs);
    var (after, decision) :- step.MapError(e => BadMonitor(e));
    if decision == NO_DECISION then Ok(Visited(Some(after), log, false)) else ApplyDecision(after, log, decision, at)
  }

  function Visit(phase: Phase, monitor: Monitor, log: EventLog, observation: TerminalObservation,
          at: Moment): Result<Visited, Damage> {
    match phase
    case OutputPhase => VisitOutput(monitor, log, observation, at)
    case TimerPhase => VisitTimer(monitor, log, at)
  }

  datatype Swept = Swept(monitors: seq<Monitor>, log: EventLog, changed: bool)

  /** Every monitor visited once, in order; the survivors keep that order. */
  function Sweep(phase: Phase, monitors: seq<Monitor>, log: EventLog, observation: TerminalObservation,
          at: Moment): Result<Swept, Damage> {
    if monitors == [] then Ok(Swept([], log, false))
    else
      var visited :- Visit(phase, monitors[0], log, observation, at);
      var rest :- Sweep(phase, monitors[1..], visited.log, observation, at);
      Ok(Swept((if visited.survivor.Some? then [visited.survivor.value] else []) + rest.monitors,
               rest.log, visited.changed || rest.changed))
  }

  function DegradeAll(monitors: seq<Monitor>): Result<(seq<Monitor>, bool), Damage> {
    if monitors == [] then Ok(([], false))
    else
      var (first, degraded) :- monitors[0].DegradeForRawGap().MapError(e => BadMonitor(e));
      var (rest, any) :- DegradeAll(monitors[1..]);
      Ok(([first] + rest, degraded || any))
  }

  function FirstPollingDue(monitors: seq<Monitor>, nowMs: I64): Option<nat> {
    if monitors == [] then None
    else if monitors[0].PollingDue(nowMs) then Some(0)
    else match FirstPollingDue(monitors[1..], nowMs)
      case None => None
      case Some(index) => Some(index + 1)
  }

  lemma {:induction false} PollingIndexInRange(monitors: seq<Monitor>, nowMs: I64)
    ensures var due := FirstPollingDue(monitors, nowMs);
            due.Some? ==> due.value < |monitors| && monitors[due.value].PollingDue(nowMs)
  {
    if monitors != [] {
      PollingIndexInRange(monitors[1..], nowMs);
    }
  }

  function Replace(monitors: seq<Monitor>, index: nat, survivor: Option<Monitor>): seq<Monitor>
    requires index < |monitors|
  {
    monitors[..index] + (if survivor.Some? then [survivor.value] else []) + monitors[index + 1..]
  }

  /** At most one polling probe per evaluation, for the first monitor whose check is due. */
  function PollOne(monitors: seq<Monitor>, log: EventLog, pollMatched: bool, at: Moment): Result<Swept, Damage> {
    PollingIndexInRange(monitors, at.nowMs);
    match FirstPollingDue(monitors, at.nowMs)
    case None => Ok(Swept(monitors, log, false))
    case Some(index) =>
      var (after, decision) :- monitors[index].Observe(CheckRun, pollMatched, at.nowMs).MapError(e => BadMonitor(e));
      var visited :- ApplyDecision(after, log, decision, at);
      Ok(Swept(Replace(monitors, index, visited.survivor), visited.log, true))
  }

  // Ending a session.

  function ExitMatches(condition: Condition, lifecycle: Lifecycle, exitCode: Option<int>,
          signal: Option<Signal>): bool {
    match condition
    case ProcessExit => lifecycle == Exited
    case ExitCode(expected) => lifecycle == Exited && exitCode == Some(expected)
    case SignalIs(expected) => lifecycle == Exited && signal == Some(expected)
    case _ => false
  }

  /** What the end of the session makes of a monitor, and its last decision. */
  function EndDecision(monitor: Monitor, exitCode: Option<int>, signal: Option<Signal>, at: Moment): Step<Decision> {
    var (exited, decision) :-
      if monitor.definition.condition.IsExitCondition() && at.lifecycle == Exited
      then monitor.Observe(ExitSeen,
          ExitMatches(monitor.definition.condition, at.lifecycle, exitCode, signal), at.nowMs)
      else Ok((monitor, NO_DECISION));
    if decision.notify.None? && exited.definition.notify == OnExit
        && exited.runtime.lastEventReason != Some(SessionExit)
    then exited.Observe(SessionExitSeen, false, at.nowMs)
    else Ok((exited, decision))
  }

  /** The last visit: one optional event, then removal. */
  function EndOne(monitor: Monitor, log: EventLog, exitCode: Option<int>, signal: Option<Signal>,
          at: Moment): Result<EventLog, Damage> {
    var (last, decision) :- EndDecision(monitor, exitCode, signal, at).MapError(e => BadMonitor(e));
    var visited :- ApplyDecision(last, log, decision.(remove := true), at);
    Ok(visited.log)
  }

  function EndAll(monitors: seq<Monitor>, log: EventLog, exitCode: Option<int>, signal: Option<Signal>,
          at: Moment): Result<EventLog, Damage> {
    if monitors == [] then Ok(log)
    else
      var next :- EndOne(monitors[0], log, exitCode, signal, at);
      EndAll(monitors[1..], next, exitCode, signal, at)
  }

  datatype Evaluated = Evaluated(candidate: MonitorSet, changed: bool)

  function AfterGap(candidate: MonitorSet, observation: TerminalObservation): Result<Evaluated, Damage> {
    if !observation.rawGap then Ok(Evaluated(candidate, false))
    else
      var (monitors, degraded) :- DegradeAll(candidate.monitors);
      Ok(Evaluated(candidate.(monitors := monitors), degraded))
  }

  function AfterSweep(phase: Phase, before: Evaluated, observation: TerminalObservation,
          at: Moment): Result<Evaluated, Damage> {
    var swept :- Sweep(phase, before.candidate.monitors, before.candidate.log, observation, at);
    Ok(Evaluated(before.candidate.(monitors := swept.monitors, log := swept.log), before.changed || swept.changed))
  }

  function AfterOutput(before: Evaluated, observation: TerminalObservation, at: Moment): Result<Evaluated, Damage> {
    if observation.output == [] then Ok(before)
    else AfterSweep(OutputPhase, Evaluated(before.candidate.(lastOutputAtMs := at.nowMs), true), observation, at)
  }

  function AfterPoll(before: Evaluated, pollMatched: bool, at: Moment): Result<Evaluated, Damage> {
    if at.lifecycle != Running then Ok(before)
    else
      var polled :- PollOne(before.candidate.monitors, before.candidate.log, pollMatched, at);
      Ok(Evaluated(before.candidate.(monitors := polled.monitors, log := polled.log), before.changed || polled.changed))
  }

  function AfterLifecycle(before: Evaluated, observation: TerminalObservation, at: Moment): Result<Evaluated, Damage> {
    var candidate := before.candidate;
    if candidate.lastLifecycle == Running && at.lifecycle != Running then
      var log :- EndAll(candidate.monitors, candidate.log, observation.exitCode, observation.signal, at);
      Ok(Evaluated(candidate.(monitors := [], log := log, lastLifecycle := at.lifecycle), true))
    else
      Ok(Evaluated(candidate.(lastLifecycle := at.lifecycle), before.changed
          || candidate.lastLifecycle != at.lifecycle))
  }

  function MomentOf(observation: TerminalObservation, nowMs: I64): Moment {
    Moment(observation.lifecycle, observation.cursorEnd, nowMs)
  }

  /** Everything up to and including the second scan. */
  function AfterScans(candidate: MonitorSet, observation: TerminalObservation, at: Moment): Result<Evaluated, Damage> {
    var gapped :- AfterGap(candidate, observation);
    var read :- AfterOutput(gapped, observation, at);
    AfterSweep(TimerPhase, read.(candidate := read.candidate.(cursorOffset := observation.cursorEnd)), observation, at)
  }

  /** The body of `evaluate_terminal` once the observation is accepted. */
  function EvaluateAccepted(candidate: MonitorSet, observation: TerminalObservation, pollMatched: bool,
          nowMs: I64): Result<Evaluated, Damage> {
    var at := MomentOf(observation, nowMs);
    var timed :- AfterScans(candidate, observation, at);
    var polled :- AfterPoll(timed, pollMatched, at);
    AfterLifecycle(polled, observation, at)
  }

  // Store operations on the saved value. Each returns what is saved afterwards and the reply.

  function Damaged<T>(step: Result<T, Damage>): Result<T, StoreError> {
    step.MapError(damage => Corrupt(damage))
  }

  function Load(saved: Option<MonitorSet>, sessionId: Bytes): Result<Option<MonitorSet>, StoreError> {
    if saved.Some? && Validate(saved.value, sessionId).Some? then Err(Corrupt(Validate(saved.value, sessionId).value))
    else Ok(saved)
  }

  function Save(candidate: MonitorSet): Result<MonitorSet, StoreError> {
    match Validate(candidate, candidate.sessionId)
    case Some(damage) => Err(Corrupt(damage))
    case None => Ok(candidate)
  }

  /** `evaluate_terminal`: the saved set (None: unchanged) and whether it was saved. */
  function Evaluate(saved: Option<MonitorSet>, sessionId: Bytes, observation: TerminalObservation,
          pollMatched: bool, nowMs: I64):
      Result<Option<MonitorSet>, StoreError> {
    var loaded :- Load(saved, sessionId);
    if loaded.None? || loaded.value.monitors == [] then Ok(None)
    else if !observation.rawGap && observation.cursorStart != loaded.value.cursorOffset then Ok(None)
    else if observation.cursorEnd < observation.cursorStart then Err(Corrupt(CursorInconsistent))
    else
      var evaluated :- Damaged(EvaluateAccepted(loaded.value, observation, pollMatched, nowMs));
      if !evaluated.changed then Ok(None)
      else
        var stored :- Save(evaluated.candidate);
        Ok(Some(stored))
  }

  /** `end_session`: the saved set (None: unchanged). */
  function EndSession(saved: Option<MonitorSet>, sessionId: Bytes, lifecycle: Lifecycle,
          nowMs: I64): Result<Option<MonitorSet>, StoreError> {
    var loaded :- Load(saved, sessionId);
    if loaded.None? || loaded.value.monitors == [] then Ok(None)
    else
      var candidate := loaded.value;
      var log :- Damaged(EndAll(candidate.monitors, candidate.log, None, None,
          Moment(lifecycle, candidate.cursorOffset, nowMs)));
      var stored :- Save(candidate.(monitors := [], log := log, lastLifecycle := lifecycle));
      Ok(Some(stored))
  }

  datatype Operation =
    | Add(definition: Definition)
    | Update(monitorId: Bytes, definition: Definition)
    | Pause(monitorId: Bytes)
    | Resume(monitorId: Bytes)
    | Remove(monitorId: Bytes)
  {
    function Validate(): Option<MonitorError> {
      match this
      case Add(definition) => definition.Validate()
      case Update(monitorId, definition) =>
        if !ValidMonitorId(monitorId) then Some(InvalidMonitor) else definition.Validate()
      case Pause(monitorId) => if ValidMonitorId(monitorId) then None else Some(InvalidMonitor)
      case Resume(monitorId) => if ValidMonitorId(monitorId) then None else Some(InvalidMonitor)
      case Remove(monitorId) => if ValidMonitorId(monitorId) then None else Some(InvalidMonitor)
    }
  }

  function FindMonitor(monitors: seq<Monitor>, monitorId: Bytes): Option<nat> {
    if monitors == [] then None
    else if monitors[0].monitorId == monitorId then Some(0)
    else match FindMonitor(monitors[1..], monitorId)
      case None => None
      case Some(index) => Some(index + 1)
  }

  lemma {:induction false} FoundIndexInRange(monitors: seq<Monitor>, monitorId: Bytes)
    ensures var found := FindMonitor(monitors, monitorId);
            found.Some? ==> found.value < |monitors| && monitors[found.value].monitorId == monitorId
  {
    if monitors != [] {
      FoundIndexInRange(monitors[1..], monitorId);
    }
  }

  /** Replaces one monitor by `changed` and logs `reason` for it. */
  function ReplaceAndEmit(candidate: MonitorSet, index: nat, changed: Monitor, reason: EventReason,
          at: Moment): Result<MonitorSet, StoreError>
    requires index < |candidate.monitors|
  {
    var (noted, log) :- Damaged(Emit(changed, candidate.log, reason, at));
    Ok(candidate.(monitors := candidate.monitors[index := noted], log := log))
  }

  function Bump(monitor: Monitor): Result<Monitor, StoreError> {
    monitor.BumpGeneration().MapError(e => Corrupt(BadMonitor(e)))
  }

  /** `prepared` is whether resolving the definition's paths, probe directory or URL succeeds. */
  function AddMonitor(candidate: MonitorSet, definition: Definition, prepared: bool,
          at: Moment): Result<(MonitorSet, Bytes), StoreError> {
    if |candidate.monitors| >= MAXIMUM_MONITORS then Err(InvalidArguments(TooManyMonitors))
    else
      var id :- StableId(candidate.nextMonitorId).MapError(e => Corrupt(BadMonitor(e)));
      if candidate.nextMonitorId == MAX_U64 then Err(Corrupt(MonitorIdsExhausted))
      else
        var monitor :- NewMonitor(id, definition, at.nowMs).MapError(e => InvalidArguments(BadDefinition(e)));
        if !prepared then Err(InvalidArguments(EffectsRefused))
        else Ok((candidate.(nextMonitorId := candidate.nextMonitorId + 1, monitors := candidate.monitors
            + [monitor]), id))
  }

  function UpdateAt(candidate: MonitorSet, index: nat, definition: Definition, prepared: bool,
          at: Moment): Result<MonitorSet, StoreError>
    requires index < |candidate.monitors|
  {
    var monitor := candidate.monitors[index];
    if monitor.runtime.generation == MAX_U64 then Err(Corrupt(GenerationExhausted))
    else
      var replacement :- NewMonitor(monitor.monitorId, definition,
          at.nowMs).MapError(e => InvalidArguments(BadDefinition(e)));
      if !prepared then Err(InvalidArguments(EffectsRefused))
      else
        var renewed := replacement.(runtime := replacement.runtime.(generation := monitor.runtime.generation + 1));
        ReplaceAndEmit(candidate, index, renewed, Updated, at)
  }

  function PauseAt(candidate: MonitorSet, index: nat, at: Moment): Result<MonitorSet, StoreError>
    requires index < |candidate.monitors|
  {
    var (paused, did) := candidate.monitors[index].Pause();
    if !did then Ok(candidate)
    else
      var bumped :- Bump(paused);
      ReplaceAndEmit(candidate, index, bumped, WasPaused, at)
  }

  function ResumeAt(candidate: MonitorSet, index: nat, at: Moment): Result<MonitorSet, StoreError>
    requires index < |candidate.monitors|
  {
    var (resumed, did) :- candidate.monitors[index].Resume(at.nowMs).MapError(e => Corrupt(BadMonitor(e)));
    if !did then Ok(candidate)
    else
      var bumped :- Bump(resumed);
      ReplaceAndEmit(candidate, index, bumped, Resumed, at)
  }

  function RemoveAt(candidate: MonitorSet, index: nat, at: Moment): Result<MonitorSet, StoreError>
    requires index < |candidate.monitors|
  {
    var (_, log) :- Damaged(Emit(candidate.monitors[index], candidate.log, Removed, at));
    Ok(candidate.(monitors := Replace(candidate.monitors, index, None), log := log))
  }

  function ChangeMonitor(candidate: MonitorSet, operation: Operation, prepared: bool,
          at: Moment): Result<MonitorSet, StoreError>
    requires !operation.Add?
  {
    FoundIndexInRange(candidate.monitors, operation.monitorId);
    match FindMonitor(candidate.monitors, operation.monitorId)
    case None => Err(InvalidArguments(MonitorNotFound))
    case Some(index) =>
      match operation
      case Update(_, definition) => UpdateAt(candidate, index, definition, prepared, at)
      case Pause(_) => PauseAt(candidate, index, at)
      case Resume(_) => ResumeAt(candidate, index, at)
      case Remove(_) => RemoveAt(candidate, index, at)
  }

  /** `operate`: the new saved set and the id of the monitor operated on. */
  function Operate(saved: Option<MonitorSet>, sessionId: Bytes, operation: Operation, prepared: bool, at: Moment):
      Result<(MonitorSet, Bytes), StoreError> {
    if operation.Validate().Some? then Err(InvalidArguments(BadOperation(operation.Validate().value)))
    else
      var loaded :- Load(saved, sessionId);
      var before := if loaded.Some? then loaded.value else EmptySet(sessionId, at.cursorOffset, at.lifecycle, at.nowMs);
      var candidate := before.(lastLifecycle := at.lifecycle);
      var (after, id) :-
        if operation.Add? then AddMonitor(candidate, operation.definition, prepared, at)
        else
          var changed :- ChangeMonitor(candidate, operation, prepared, at);
          Ok((changed, operation.monitorId));
      if Validate(after, sessionId).Some? then Err(Corrupt(Validate(after, sessionId).value))
      else
        var stored :- Save(after);
        Ok((stored, id))
  }

  function BuildInitial(definitions: seq<Definition>, sequence: U64, prepared: seq<bool>,
          nowMs: I64): Result<seq<Monitor>, StoreError>
    requires |prepared| == |definitions|
    decreases |definitions|
  {
    if definitions == [] then Ok([])
    else
      var id :- StableId(sequence).MapError(e => Corrupt(BadMonitor(e)));
      var monitor :- NewMonitor(id, definitions[0], nowMs).MapError(e => InvalidArguments(BadDefinition(e)));
      if !prepared[0] then Err(InvalidArguments(EffectsRefused))
      else if sequence == MAX_U64 then Err(Corrupt(MonitorIdsExhausted))
      else
        var rest :- BuildInitial(definitions[1..], sequence + 1, prepared[1..], nowMs);
        Ok([monitor] + rest)
  }

  /** `install_initial`: the saved set, or None when there is nothing to install. */
  function InstallInitial(saved: Option<MonitorSet>, sessionId: Bytes, definitions: seq<Definition>,
          prepared: seq<bool>, lifecycle: Lifecycle, nowMs: I64): Result<Option<MonitorSet>, StoreError>
    requires |prepared| == |definitions|
  {
    if definitions == [] then Ok(None)
    else
      var loaded :- Load(saved, sessionId);
      if loaded.Some? then Err(Corrupt(InitialSetExists))
      else if |definitions| > MAXIMUM_MONITORS then Err(InvalidArguments(TooManyMonitors))
      else
        var monitors :- BuildInitial(definitions, 1, prepared, nowMs);
        if |monitors| >= MAX_U64 then Err(Corrupt(MonitorIdsExhausted))
        else
          var stored :- Save(EmptySet(sessionId, 0, lifecycle, nowMs).(nextMonitorId := |monitors| + 1,
              monitors := monitors));
          Ok(Some(stored))
  }

  // Reading the log.

  datatype Summary = Summary(monitorId: Bytes, state: State)

  datatype Page = Page(monitors: seq<Summary>, events: seq<MonitorEvent>, gapThrough: U64, nextEventId: U64)

  function Summaries(monitors: seq<Monitor>): seq<Summary> {
    if monitors == [] then []
    else [Summary(monitors[0].monitorId, monitors[0].runtime.state)] + Summaries(monitors[1..])
  }

  function After(events: seq<MonitorEvent>, eventId: U64): seq<MonitorEvent> {
    if events == [] then []
    else (if events[0].eventId > eventId then [events[0]] else []) + After(events[1..], eventId)
  }

  function Acknowledge(log: EventLog, eventId: U64): EventLog {
    log.(acknowledgedThrough := Max(log.acknowledgedThrough, eventId), events := After(log.events, eventId))
  }

  function PageOf(view: MonitorSet, after: Option<U64>, maxEvents: nat): Page {
    var unread := After(view.log.events, if after.Some? then after.value else view.log.acknowledgedThrough);
    Page(Summaries(view.monitors), unread[..Min(maxEvents, |unread|)], view.log.gapThrough, view.log.nextEventId)
  }

  /** `inspect`: the saved set (None: unchanged) and the page. */
  function Inspect(saved: Option<MonitorSet>, sessionId: Bytes, after: Option<U64>, acknowledge: Option<U64>,
          maxEvents: nat):
      Result<(Option<MonitorSet>, Page), StoreError> {
    if maxEvents == 0 || maxEvents > 256 then Err(InvalidArguments(BadPageSize))
    else
      var loaded :- Load(saved, sessionId);
      if loaded.None? then Ok((None, Page([], [], 0, 1)))
      else if acknowledge.None? then Ok((None, PageOf(loaded.value, after, maxEvents)))
      else if acknowledge.value == 0 || acknowledge.value >= loaded.value.log.nextEventId then
        Err(InvalidArguments(BadAcknowledgement))
      else
        var stored :- Save(loaded.value.(log := Acknowledge(loaded.value.log, acknowledge.value)));
        Ok((Some(stored), PageOf(stored, after, maxEvents)))
  }

  predicate WantsScreen(monitors: seq<Monitor>) {
    monitors != []
        && ((!monitors[0].Inert() && monitors[0].definition.condition.ScreenMatches?) || WantsScreen(monitors[1..]))
  }

  /** `observation_request`: the cursor to observe from, and whether to include the screen. */
  function ObservationRequest(saved: Option<MonitorSet>, sessionId: Bytes): Result<Option<(U64, bool)>, StoreError> {
    var loaded :- Load(saved, sessionId);
    if loaded.None? || loaded.value.monitors == [] then Ok(None)
    else Ok(Some((loaded.value.cursorOffset, WantsScreen(loaded.value.monitors))))
  }
}
