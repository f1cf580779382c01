// What a client operation does: whom it finds, exactly when it succeeds and the whole set it leaves.

module Operations {
  import opened Basics
  import opened Schedule
  import opened Monitors
  import opened MonitorSets
  import opened SetInvariants
  import opened StoreTheorems
  import opened Announcements
  import BitWords

  /** The first monitor of that name is found, whatever its place, and nothing else is. */
  lemma {:induction false} FoundExactlyWhenThere(monitors: seq<Monitor>, id: Bytes)
    ensures FindMonitor(monitors, id).Some? <==> id in IdSet(monitors)
  {
    if monitors != [] {
      FoundExactlyWhenThere(monitors[1..], id);
      assert monitors[0] in monitors;
      assert forall monitor | monitor in monitors :: monitor == monitors[0] || monitor in monitors[1..];
    }
  }

  lemma FoundInItsPlace(monitors: seq<Monitor>, index: nat)
    requires DistinctIds(monitors) && index < |monitors|
    ensures FindMonitor(monitors, monitors[index].monitorId) == Some(index)
  {
    var id := monitors[index].monitorId;
    FoundExactlyWhenThere(monitors, id);
    assert monitors[index] in monitors;
    FoundIndexInRange(monitors, id);
  }

  // When an operation succeeds.

  predicate RoomForEvent(monitor: Monitor, log: EventLog) {
    log.nextEventId < MAX_U64 && monitor.runtime.notificationCount < MAX_U64
  }

  predicate DueFits(delayMs: Option<U64>, nowMs: I64) {
    delayMs.Some? ==> FitsI64(nowMs + delayMs.value)
  }

  function NotifyDelay(definition: Definition): Option<U64> {
    if definition.notify.Interval? then Some(definition.notify.intervalMs) else None
  }

  function LifetimeDelay(definition: Definition): Option<U64> {
    if definition.lifetime.Duration? then Some(definition.lifetime.durationMs) else None
  }

  /** The moments at which a monitor that wakes now must act again are representable. */
  predicate WakeFits(definition: Definition, nowMs: I64) {
    DueFits(FirstCheckDelay(definition), nowMs) && DueFits(NotifyDelay(definition), nowMs)
  }

  predicate InstallFits(definition: Definition, nowMs: I64) {
    WakeFits(definition, nowMs) && DueFits(LifetimeDelay(definition), nowMs)
  }

  /** The monitor is already as the operation would have it. */
  predicate NothingToDo(operation: Operation, monitor: Monitor) {
    (operation.Pause? && monitor.Inert()) || (operation.Resume? && monitor.runtime.state != Paused)
  }

  /** There is room for the event and the new generation, and the definition can be put to work. */
  predicate CanBeDone(operation: Operation, monitor: Monitor, log: EventLog, prepared: bool, nowMs: I64)
    requires !operation.Add?
  {
    NothingToDo(operation, monitor) ||
    match operation
    case Pause(_) => RoomForEvent(monitor, log) && monitor.runtime.generation < MAX_U64
    case Resume(_) => RoomForEvent(monitor, log) && monitor.runtime.generation < MAX_U64
                      && WakeFits(monitor.definition, nowMs)
    case Remove(_) => RoomForEvent(monitor, log)
    case Update(_, definition) => log.nextEventId < MAX_U64 && monitor.runtime.generation < MAX_U64
                                  && prepared && InstallFits(definition, nowMs)
  }

  // What it leaves.

  function ReasonOf(operation: Operation): EventReason
    requires !operation.Add?
  {
    match operation
    case Pause(_) => WasPaused
    case Resume(_) => Resumed
    case Remove(_) => Removed
    case Update(_, _) => Updated
  }

  function DueAfter(delayMs: Option<U64>, nowMs: I64, otherwise: Option<I64>): Option<I64>
    requires DueFits(delayMs, nowMs)
  {
    if delayMs.Some? then Some(nowMs + delayMs.value) else otherwise
  }

  function FreshRuntime(definition: Definition, nowMs: I64): Runtime
    requires InstallFits(definition, nowMs)
  {
    Runtime(Active, 1, nowMs, DueAfter(LifetimeDelay(definition), nowMs, None),
        DueAfter(FirstCheckDelay(definition), nowMs, None), DueAfter(NotifyDelay(definition), nowMs, None),
        0, 0, 0, None, false, BitWords.ZERO_WORDS)
  }

  /** Asleep or awake again with its match kept, or started afresh with the new definition. */
  function Reworked(operation: Operation, monitor: Monitor, nowMs: I64): Monitor
    requires operation.Resume? ==> WakeFits(monitor.definition, nowMs)
    requires operation.Update? ==> InstallFits(operation.definition, nowMs)
  {
    var runtime := monitor.runtime;
    match operation
    case Pause(_) => monitor.(runtime := runtime.(state := Paused))
    case Resume(_) => monitor.(runtime := runtime.(
        state := if runtime.conditionMatched then Matched else Active,
        nextCheckMs := DueAfter(FirstCheckDelay(monitor.definition), nowMs, runtime.nextCheckMs),
        nextNotificationMs := DueAfter(NotifyDelay(monitor.definition), nowMs, runtime.nextNotificationMs)))
    case Update(_, definition) => Monitor(monitor.monitorId, definition, FreshRuntime(definition, nowMs))
    case Remove(_) | Add(_) => monitor
  }

  /** The changed monitor with its new generation and its event noted. */
  predicate IsChanged(operation: Operation, monitor: Monitor, changed: Monitor, eventId: U64, nowMs: I64)
    requires !operation.Add?
    requires operation.Resume? ==> WakeFits(monitor.definition, nowMs)
    requires operation.Update? ==> InstallFits(operation.definition, nowMs)
  {
    var reworked := Reworked(operation, monitor, nowMs);
    && changed == reworked.(runtime := reworked.runtime.(generation := changed.runtime.generation,
        notificationCount := changed.runtime.notificationCount, lastEventId := eventId,
        lastEventReason := Some(ReasonOf(operation))))
    && changed.runtime.generation == monitor.runtime.generation + 1
    && changed.runtime.notificationCount == reworked.runtime.notificationCount + 1
  }

  /** One event, of this monitor and with the operation's reason; every other monitor as it was, in its place. */
  predicate IsDone(operation: Operation, before: MonitorSet, index: nat, after: MonitorSet, at: Moment)
    requires index < |before.monitors| && !operation.Add?
    requires operation.Resume? ==> WakeFits(before.monitors[index].definition, at.nowMs)
    requires operation.Update? ==> InstallFits(operation.definition, at.nowMs)
  {
    var monitor, eventId := before.monitors[index], before.log.nextEventId;
    && after == before.(monitors := after.monitors, log := after.log)
    && LogGrows(before.log, after.log)
    && Appends(before.log, after.log, [EventFor(monitor, eventId, ReasonOf(operation), at)])
    && if operation.Remove? then after.monitors == before.monitors[..index] + before.monitors[index + 1..]
       else && |after.monitors| == |before.monitors|
            && after.monitors == before.monitors[index := after.monitors[index]]
            && IsChanged(operation, monitor, after.monitors[index], eventId, at.nowMs)
  }

  predicate IsResult(operation: Operation, prepared: bool, before: MonitorSet, index: nat, at: Moment,
          result: Result<MonitorSet, StoreError>)
    requires index < |before.monitors| && !operation.Add?
  {
    var monitor := before.monitors[index];
    if NothingToDo(operation, monitor) then result == Ok(before)
    else if CanBeDone(operation, monitor, before.log, prepared, at.nowMs) then
      result.Ok? && IsDone(operation, before, index, result.value, at)
    else result.Err? && IsRefusal(operation, result.error)
  }

  /** Something is used up, or the new definition cannot be put to work. */
  predicate IsRefusal(operation: Operation, error: StoreError) {
    || (error.Corrupt? && Exhausted(error.damage))
    || (operation.Update?
        && (error == InvalidArguments(EffectsRefused) || error == InvalidArguments(BadDefinition(DeadlineOverflow))))
  }

  // One operation after the other.

  lemma EmitExactlyWhen(monitor: Monitor, log: EventLog, reason: EventReason, at: Moment)
    requires MonitorInv(monitor, log.nextEventId) && LogInv(log)
    ensures Emit(monitor, log, reason, at).Ok? <==> RoomForEvent(monitor, log)
    ensures Emit(monitor, log, reason, at).Ok? ==>
            Emit(monitor, log, reason, at).value.0 == monitor.(runtime := monitor.runtime.(
                lastEventId := log.nextEventId, lastEventReason := Some(reason),
                notificationCount := monitor.runtime.notificationCount + 1))
  {
  }

  lemma ReplaceAndEmitIs(candidate: MonitorSet, index: nat, changed: Monitor, reason: EventReason, at: Moment)
    requires SetInv(candidate) && at.nowMs >= 0 && index < |candidate.monitors|
    requires MonitorInv(changed, candidate.log.nextEventId) && changed.monitorId == candidate.monitors[index].monitorId
    ensures var result := ReplaceAndEmit(candidate, index, changed, reason, at);
            && (result.Ok? <==> RoomForEvent(changed, candidate.log))
            && (result.Err? ==> result.error.Corrupt? && Exhausted(result.error.damage))
            && (result.Ok? ==>
                  && result.value == candidate.(monitors := result.value.monitors, log := result.value.log)
                  && LogGrows(candidate.log, result.value.log)
                  && Appends(candidate.log, result.value.log,
                             [EventFor(candidate.monitors[index], candidate.log.nextEventId, reason, at)])
                  && result.value.monitors == candidate.monitors[index := changed.(runtime := changed.runtime.(
                      lastEventId := candidate.log.nextEventId, lastEventReason := Some(reason),
                      notificationCount := changed.runtime.notificationCount + 1))])
  {
    EmitExactlyWhen(changed, candidate.log, reason, at);
    EmitKeeps(changed, candidate.log, reason, at);
    if Emit(changed, candidate.log, reason, at).Ok? {
      EmitAppends(changed, candidate.log, reason, at);
    }
  }

  /** A new monitor starts out awake, unmatched and with its deadlines ahead; it needs them to be representable. */
  lemma NewMonitorIs(id: Bytes, definition: Definition, nowMs: I64)
    requires definition.Validate() == None && ValidMonitorId(id) && nowMs >= 0
    ensures InstallFits(definition, nowMs) ==>
            NewMonitor(id, definition, nowMs) == Ok(Monitor(id, definition, FreshRuntime(definition, nowMs)))
    ensures !InstallFits(definition, nowMs) ==> NewMonitor(id, definition, nowMs) == Err(DeadlineOverflow)
  {
  }

  /** A monitor expires when the duration of its lifetime has passed since it was installed, and else never. */
  lemma ExpiresAfterItsDuration(id: Bytes, definition: Definition, nowMs: I64, laterMs: I64)
    requires NewMonitor(id, definition, nowMs).Ok?
    ensures NewMonitor(id, definition, nowMs).value.ExpiredAt(laterMs) <==>
            definition.lifetime.Duration? && laterMs - nowMs >= definition.lifetime.durationMs
  {
    NewMonitorIs(id, definition, nowMs);
  }

  lemma ResumeIs(monitor: Monitor, nowMs: I64)
    requires monitor.Validate() == None && monitor.runtime.state == Paused
    ensures WakeFits(monitor.definition, nowMs) ==>
            monitor.Resume(nowMs) == Ok((Reworked(Resume(monitor.monitorId), monitor, nowMs), true))
    ensures !WakeFits(monitor.definition, nowMs) ==> monitor.Resume(nowMs).Err?
  {
  }

  lemma PauseResult(before: MonitorSet, operation: Operation, prepared: bool, index: nat, at: Moment)
    requires SetInv(before) && at.nowMs >= 0 && index < |before.monitors| && operation.Pause?
    ensures IsResult(operation, prepared, before, index, at, PauseAt(before, index, at))
  {
    var monitor := before.monitors[index];
    assert monitor in before.monitors;
    var paused := monitor.Pause().0;
    if !monitor.Inert() && paused.BumpGeneration().Ok? {
      ReplaceAndEmitIs(before, index, paused.BumpGeneration().value, WasPaused, at);
    }
  }

  lemma ResumeResult(before: MonitorSet, operation: Operation, prepared: bool, index: nat, at: Moment)
    requires SetInv(before) && at.nowMs >= 0 && index < |before.monitors| && operation.Resume?
    ensures IsResult(operation, prepared, before, index, at, ResumeAt(before, index, at))
  {
    var monitor := before.monitors[index];
    assert monitor in before.monitors;
    if monitor.runtime.state == Paused {
      ResumeIs(monitor, at.nowMs);
      ResumeKeeps(monitor, at.nowMs, before.log.nextEventId);
      if WakeFits(monitor.definition, at.nowMs) {
        var resumed := monitor.Resume(at.nowMs).value.0;
        if resumed.BumpGeneration().Ok? {
          ReplaceAndEmitIs(before, index, resumed.BumpGeneration().value, Resumed, at);
        }
      }
    }
  }

  lemma RemoveResult(before: MonitorSet, operation: Operation, prepared: bool, index: nat, at: Moment)
    requires SetInv(before) && at.nowMs >= 0 && index < |before.monitors| && operation.Remove?
    ensures IsResult(operation, prepared, before, index, at, RemoveAt(before, index, at))
  {
    var monitor := before.monitors[index];
    assert monitor in before.monitors;
    EmitExactlyWhen(monitor, before.log, Removed, at);
    EmitKeeps(monitor, before.log, Removed, at);
    if Emit(monitor, before.log, Removed, at).Ok? {
      EmitAppends(monitor, before.log, Removed, at);
    }
  }

  lemma UpdateResult(before: MonitorSet, operation: Operation, prepared: bool, index: nat, at: Moment)
    requires SetInv(before) && at.nowMs >= 0 && index < |before.monitors|
    requires operation.Update? && operation.Validate() == None
    ensures IsResult(operation, prepared, before, index, at,
            UpdateAt(before, index, operation.definition, prepared, at))
  {
    var monitor := before.monitors[index];
    assert monitor in before.monitors;
    NewMonitorIs(monitor.monitorId, operation.definition, at.nowMs);
    if monitor.runtime.generation < MAX_U64 && InstallFits(operation.definition, at.nowMs) && prepared {
      RenewedKeeps(monitor, operation.definition, at.nowMs, before.log.nextEventId);
      var replacement := NewMonitor(monitor.monitorId, operation.definition, at.nowMs).value;
      var renewed := replacement.(runtime := replacement.runtime.(generation := monitor.runtime.generation + 1));
      ReplaceAndEmitIs(before, index, renewed, Updated, at);
    }
  }

  lemma ChangeResult(before: MonitorSet, operation: Operation, prepared: bool, index: nat, at: Moment)
    requires SetInv(before) && at.nowMs >= 0 && index < |before.monitors|
    requires !operation.Add? && operation.Validate() == None && before.monitors[index].monitorId == operation.monitorId
    ensures IsResult(operation, prepared, before, index, at, ChangeMonitor(before, operation, prepared, at))
  {
    FoundInItsPlace(before.monitors, index);
    match operation
    case Update(_, _) => UpdateResult(before, operation, prepared, index, at);
    case Pause(_) => PauseResult(before, operation, prepared, index, at);
    case Resume(_) => ResumeResult(before, operation, prepared, index, at);
    case Remove(_) => RemoveResult(before, operation, prepared, index, at);
  }

  // The theorems about the store.

  /** A definition is accepted exactly if its parts are in range and it has a check interval exactly if it polls. */
  lemma DefinitionAcceptedExactlyWhen(definition: Definition)
    ensures definition.Validate() == None <==>
            && definition.condition.Valid()
            && (definition.notify.EveryNChecks? ==> 0 < definition.notify.count <= 1_000_000)
            && (definition.notify.Interval? ==> ValidSchedule(definition.notify.intervalMs))
            && (definition.lifetime.Duration? ==> 0 < definition.lifetime.durationMs <= MAXIMUM_LIFETIME_MS)
            && (definition.checkIntervalMs.Some? <==> definition.condition.RequiresPolling())
            && (definition.checkIntervalMs.Some? ==> ValidSchedule(definition.checkIntervalMs.value))
  {
  }

  /**
   * Updating, pausing, resuming or removing a monitor that is there succeeds exactly if nothing is used up and a
   * new definition can be put to work; then this is what it leaves.
   */
  lemma OperationTakesEffect(saved: MonitorSet, operation: Operation, prepared: bool, index: nat, at: Moment)
    requires SetInv(saved) && at.nowMs >= 0 && !operation.Add?
    requires operation.Update? ==> operation.definition.Validate() == None
    requires index < |saved.monitors| && saved.monitors[index].monitorId == operation.monitorId
    ensures var result := Operate(Some(saved), saved.sessionId, operation, prepared, at);
            var before := saved.(lastLifecycle := at.lifecycle);
            var monitor := saved.monitors[index];
            && (result.Ok? <==> CanBeDone(operation, monitor, saved.log, prepared, at.nowMs))
            && (result.Err? ==> IsRefusal(operation, result.error))
            && (result.Ok? ==> result.value.1 == operation.monitorId)
            && (result.Ok? && NothingToDo(operation, monitor) ==> result.value.0 == before)
            && (result.Ok? && !NothingToDo(operation, monitor) ==>
                  IsDone(operation, before, index, result.value.0, at))
  {
    LoadSucceeds(Some(saved), saved.sessionId);
    assert saved.monitors[index] in saved.monitors;
    var before := saved.(lastLifecycle := at.lifecycle);
    ChangeResult(before, operation, prepared, index, at);
    ChangeKeeps(before, operation, prepared, at);
    if ChangeMonitor(before, operation, prepared, at).Ok? {
      SetInvIsValid(ChangeMonitor(before, operation, prepared, at).value);
    }
  }

  /** Operations on a monitor that is there find it, wherever it is; only the others are told that there is none. */
  lemma NotFoundExactlyWhenAbsent(saved: Option<MonitorSet>, sessionId: Bytes, operation: Operation, prepared: bool,
          at: Moment)
    requires SavedInv(saved, sessionId) && at.nowMs >= 0 && !operation.Add? && operation.Validate() == None
    ensures Operate(saved, sessionId, operation, prepared, at) == Err(InvalidArguments(MonitorNotFound)) <==>
            saved.None? || operation.monitorId !in IdSet(saved.value.monitors)
  {
    if saved.Some? && operation.monitorId in IdSet(saved.value.monitors) {
      var monitor :| monitor in saved.value.monitors && monitor.monitorId == operation.monitorId;
      var index: nat :| index < |saved.value.monitors| && saved.value.monitors[index] == monitor;
      OperationTakesEffect(saved.value, operation, prepared, index, at);
    } else {
      AbsentIsNotFound(saved, sessionId, operation, prepared, at);
    }
  }

  lemma AbsentIsNotFound(saved: Option<MonitorSet>, sessionId: Bytes, operation: Operation, prepared: bool, at: Moment)
    requires SavedInv(saved, sessionId) && !operation.Add? && operation.Validate() == None
    requires saved.None? || operation.monitorId !in IdSet(saved.value.monitors)
    ensures Operate(saved, sessionId, operation, prepared, at) == Err(InvalidArguments(MonitorNotFound))
  {
    LoadSucceeds(saved, sessionId);
    FoundExactlyWhenThere(OperatedOn(saved, sessionId, at).monitors, operation.monitorId);
  }

  /** Adding succeeds exactly if there is room and the definition can be put to work; nothing is logged. */
  lemma AdditionTakesEffect(saved: Option<MonitorSet>, sessionId: Bytes, definition: Definition,
          prepared: bool, at: Moment)
    requires SavedInv(saved, sessionId) && at.nowMs >= 0 && definition.Validate() == None
    ensures var before := OperatedOn(saved, sessionId, at);
            var result := Operate(saved, sessionId, Add(definition), prepared, at);
            && (result.Ok? <==> |before.monitors| < MAXIMUM_MONITORS && before.nextMonitorId < MAX_U64
                                && prepared && InstallFits(definition, at.nowMs))
            && (result.Ok? ==>
                  && StableId(before.nextMonitorId) == Ok(result.value.1)
                  && result.value.0 == before.(nextMonitorId := before.nextMonitorId + 1, monitors := before.monitors
                      + [Monitor(result.value.1, definition, FreshRuntime(definition, at.nowMs))]))
  {
    LoadSucceeds(saved, sessionId);
    var before := OperatedOn(saved, sessionId, at);
    assert SetInv(before);
    AddKeeps(before, definition, prepared, at);
    if before.nextMonitorId < MAX_U64 {
      FreshIdIsNew(before);
      NewMonitorIs(StableId(before.nextMonitorId).value, definition, at.nowMs);
      if AddMonitor(before, definition, prepared, at).Ok? {
        SetInvIsValid(AddMonitor(before, definition, prepared, at).value.0);
      }
    }
  }

  // The first monitors.

  predicate CanStart(definition: Definition, prepared: bool, nowMs: I64) {
    definition.Validate() == None && prepared && InstallFits(definition, nowMs)
  }

  predicate AllCanStart(definitions: seq<Definition>, prepared: seq<bool>, nowMs: I64)
    requires |prepared| == |definitions|
  {
    forall i: nat | i < |definitions| :: CanStart(definitions[i], prepared[i], nowMs)
  }

  /** The monitor of that number, just installed. */
  ghost predicate IsFresh(monitor: Monitor, definition: Definition, sequence: int, nowMs: I64) {
    && 0 < sequence <= MAX_U64 && StableId(sequence) == Ok(monitor.monitorId)
    && InstallFits(definition, nowMs)
    && monitor == Monitor(monitor.monitorId, definition, FreshRuntime(definition, nowMs))
  }

  lemma {:induction false} BuildSucceedsExactlyWhen(definitions: seq<Definition>, sequence: U64, prepared: seq<bool>,
          nowMs: I64)
    requires |prepared| == |definitions| && 0 < sequence && sequence + |definitions| < MAX_U64 && nowMs >= 0
    ensures var built := BuildInitial(definitions, sequence, prepared, nowMs);
            && (built.Ok? <==> AllCanStart(definitions, prepared, nowMs))
            && (built.Ok? ==>
                  && |built.value| == |definitions|
                  && forall i: nat | i < |definitions| :: IsFresh(built.value[i], definitions[i], sequence + i, nowMs))
    decreases |definitions|
  {
    if definitions != [] {
      StableIdIsFaithful(sequence, sequence);
      StartsExactlyWhen(StableId(sequence).value, definitions[0], nowMs);
      BuildSucceedsExactlyWhen(definitions[1..], sequence + 1, prepared[1..], nowMs);
      assert AllCanStart(definitions, prepared, nowMs)
        <==> CanStart(definitions[0], prepared[0], nowMs) && AllCanStart(definitions[1..], prepared[1..], nowMs) by {
        FirstAndRest(definitions, prepared, nowMs);
      }
      if BuildInitial(definitions, sequence, prepared, nowMs).Ok? {
        var rest := BuildInitial(definitions[1..], sequence + 1, prepared[1..], nowMs).value;
        var built := BuildInitial(definitions, sequence, prepared, nowMs).value;
        forall i: nat | i < |definitions| ensures IsFresh(built[i], definitions[i], sequence + i, nowMs) {
          if i > 0 {
            assert IsFresh(rest[i - 1], definitions[1..][i - 1], sequence + 1 + (i - 1), nowMs);
          }
        }
      }
    }
  }

  lemma StartsExactlyWhen(id: Bytes, definition: Definition, nowMs: I64)
    requires ValidMonitorId(id) && nowMs >= 0
    ensures var started := NewMonitor(id, definition, nowMs);
            && (started.Ok? <==> definition.Validate() == None && InstallFits(definition, nowMs))
            && (started.Ok? ==> started.value == Monitor(id, definition, FreshRuntime(definition, nowMs)))
  {
    if definition.Validate() == None {
      NewMonitorIs(id, definition, nowMs);
    }
  }

  lemma FirstAndRest(definitions: seq<Definition>, prepared: seq<bool>, nowMs: I64)
    requires |prepared| == |definitions| && definitions != []
    ensures AllCanStart(definitions, prepared, nowMs)
       <==> CanStart(definitions[0], prepared[0], nowMs) && AllCanStart(definitions[1..], prepared[1..], nowMs)
  {
    if CanStart(definitions[0], prepared[0], nowMs) && AllCanStart(definitions[1..], prepared[1..], nowMs) {
      forall i: nat | i < |definitions| ensures CanStart(definitions[i], prepared[i], nowMs) {
        assert i > 0 ==> CanStart(definitions[1..][i - 1], prepared[1..][i - 1], nowMs);
      }
    }
  }

  /**
   * The first monitors of a session are installed together exactly if it has no set yet, they are not too many and
   * each can be put to work; then they are numbered from one, in order, and nothing is logged.
   */
  lemma InstallationTakesEffect(saved: Option<MonitorSet>, sessionId: Bytes, definitions: seq<Definition>,
          prepared: seq<bool>, lifecycle: Lifecycle, nowMs: I64)
    requires SavedInv(saved, sessionId) && nowMs >= 0 && |prepared| == |definitions| && definitions != []
    ensures var result := InstallInitial(saved, sessionId, definitions, prepared, lifecycle, nowMs);
            && (result.Ok? <==> saved.None? && |definitions| <= MAXIMUM_MONITORS
                                && AllCanStart(definitions, prepared, nowMs))
            && (result.Ok? ==>
                  && result.value.Some?
                  && var after := result.value.value;
                     && after == MonitorSet(SCHEMA_VERSION, sessionId, |definitions| + 1, 0, nowMs, lifecycle,
                                            after.monitors, EventLog(1, 0, 0, []))
                     && |after.monitors| == |definitions|
                     && forall i: nat | i < |definitions| ::
                          IsFresh(after.monitors[i], definitions[i], 1 + i, nowMs))
  {
    LoadSucceeds(saved, sessionId);
    if saved.None? && |definitions| <= MAXIMUM_MONITORS {
      BuildSucceedsExactlyWhen(definitions, 1, prepared, nowMs);
      BuildInitialKeeps(definitions, 1, prepared, nowMs);
      if BuildInitial(definitions, 1, prepared, nowMs).Ok? {
        var monitors := BuildInitial(definitions, 1, prepared, nowMs).value;
        NumberedMonitorsInv(monitors, |monitors| + 1);
        SetInvIsValid(EmptySet(sessionId, 0, lifecycle, nowMs).(nextMonitorId := |monitors| + 1, monitors := monitors));
      }
    }
  }

  // Reading and observing.

  /** All that is left of the log is above the event, and nothing else has changed. */
  ghost predicate IsAcknowledged(before: MonitorSet, eventId: U64, after: MonitorSet) {
    && after.log.acknowledgedThrough == Max(before.log.acknowledgedThrough, eventId)
    && after == before.(log := before.log.(acknowledgedThrough := after.log.acknowledgedThrough,
                                           events := after.log.events))
    && forall event :: event in after.log.events <==> event in before.log.events && event.eventId > eventId
  }

  /**
   * A page is given exactly if it is of a legal size and what it acknowledges was issued; what is acknowledged, and no
   * other event, is dropped from the log before the page is read.
   */
  lemma InspectionTakesEffect(saved: MonitorSet, after: Option<U64>, acknowledge: Option<U64>, maxEvents: nat)
    requires SetInv(saved)
    ensures var result := Inspect(Some(saved), saved.sessionId, after, acknowledge, maxEvents);
            && (result.Ok? <==> 1 <= maxEvents <= 256
                                && (acknowledge.Some? ==> 0 < acknowledge.value < saved.log.nextEventId))
            && (result.Ok? ==>
                  && result.value.0.Some? == acknowledge.Some?
                  && result.value.1 == PageOf(Overwrite(Some(saved), result.value.0).value, after, maxEvents)
                  && (acknowledge.Some? ==> IsAcknowledged(saved, acknowledge.value, result.value.0.value)))
  {
    LoadSucceeds(Some(saved), saved.sessionId);
    if acknowledge.Some? && 0 < acknowledge.value < saved.log.nextEventId {
      AcknowledgeKeepsLog(saved.log, acknowledge.value);
      SetInvIsValid(saved.(log := Acknowledge(saved.log, acknowledge.value)));
      KeptAfter(saved.log.events, acknowledge.value);
    }
  }

  lemma {:induction false} KeptAfter(events: seq<MonitorEvent>, eventId: U64)
    ensures forall event :: event in After(events, eventId) <==> event in events && event.eventId > eventId
    decreases |events|
  {
    if events != [] {
      KeptAfter(events[1..], eventId);
      assert forall event :: event in events <==> event == events[0] || event in events[1..];
    }
  }

  /** A worker is to look from the saved cursor on, and at the screen exactly if a monitor that is awake reads it. */
  lemma RequestAsksFor(saved: Option<MonitorSet>, sessionId: Bytes)
    requires SavedInv(saved, sessionId)
    ensures ObservationRequest(saved, sessionId)
            == Ok(if saved.None? || saved.value.monitors == [] then None
                  else Some((saved.value.cursorOffset,
                             exists monitor :: monitor in saved.value.monitors && !monitor.Inert()
                                               && monitor.definition.condition.ScreenMatches?)))
  {
    LoadSucceeds(saved, sessionId);
    if saved.Some? {
      ScreenIsWanted(saved.value.monitors);
    }
  }

  lemma {:induction false} ScreenIsWanted(monitors: seq<Monitor>)
    ensures WantsScreen(monitors) <==>
            exists monitor :: monitor in monitors && !monitor.Inert() && monitor.definition.condition.ScreenMatches?
  {
    if monitors != [] {
      ScreenIsWanted(monitors[1..]);
      assert forall monitor :: monitor in monitors <==> monitor == monitors[0] || monitor in monitors[1..];
    }
  }
}
