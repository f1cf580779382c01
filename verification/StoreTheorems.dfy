// Whole store operations: each keeps the invariant and can fail only on bad arguments or exhaustion.

module StoreTheorems {
  import opened Basics
  import opened Schedule
  import opened Monitors
  import opened MonitorSets
  import opened SetInvariants
  import BitWords

  lemma {:induction false} DegradeAllKeeps(monitors: seq<Monitor>, nextEventId: int)
    requires MonitorsInv(monitors, nextEventId)
    ensures match DegradeAll(monitors)
            case Ok((after, _)) =>
              && MonitorsInv(after, nextEventId) && |after| == |monitors| && IdSet(after) == IdSet(monitors)
              && forall i: nat | i < |monitors| :: SameMonitor(monitors[i], after[i])
                  && Ok(after[i]) == Degradation(monitors[i])
            case Err(damage) => Exhausted(damage)
  {
    if monitors != [] {
      MonitorsInvTail(monitors, nextEventId, nextEventId);
      DegradeKeeps(monitors[0], nextEventId);
      DegradeAllKeeps(monitors[1..], nextEventId);
      if monitors[0].DegradeForRawGap().Ok? && DegradeAll(monitors[1..]).Ok? {
        var (rest, _) := DegradeAll(monitors[1..]).value;
        MonitorsInvCons(Some(monitors[0].DegradeForRawGap().value.0), rest, nextEventId);
      }
    }
  }

  function Degradation(monitor: Monitor): Result<Monitor, MonitorError> {
    var (after, _) :- monitor.DegradeForRawGap();
    Ok(after)
  }

  lemma ReplaceKeeps(monitors: seq<Monitor>, index: nat, survivor: Option<Monitor>, nextEventId: int, later: int)
    requires index < |monitors| && MonitorsInv(monitors, nextEventId) && nextEventId <= later
    requires survivor.Some? ==> MonitorInv(survivor.value, later) && SameMonitor(monitors[index], survivor.value)
    ensures var after := Replace(monitors, index, survivor);
            && MonitorsInv(after, later) && |after| <= |monitors| && IdSet(after) <= IdSet(monitors)
            && (forall monitor | monitor in after :: monitor in monitors || survivor == Some(monitor))
  {
    var after := Replace(monitors, index, survivor);
    var shift := if survivor.Some? then 0 else 1;
    assert forall i: nat | i < |after| :: after[i] == if i == index
           && survivor.Some? then survivor.value else monitors[if i < index then i else i + shift];
    forall monitor | monitor in after
      ensures MonitorInv(monitor, later) && monitor.monitorId in IdSet(monitors)
      ensures monitor in monitors || survivor == Some(monitor)
    {
      assert monitors[index] in monitors;
      if survivor != Some(monitor) {
        assert monitor in monitors;
      }
    }
  }

  lemma PollKeeps(monitors: seq<Monitor>, log: EventLog, pollMatched: bool, at: Moment)
    requires MonitorsInv(monitors, log.nextEventId) && LogInv(log) && at.nowMs >= 0
    ensures match PollOne(monitors, log, pollMatched, at)
            case Ok(polled) => GoodSweep(monitors, log, polled.monitors, polled.log)
            case Err(damage) => Exhausted(damage)
  {
    PollingIndexInRange(monitors, at.nowMs);
    match FirstPollingDue(monitors, at.nowMs)
    case None =>
    case Some(index) =>
      var monitor := monitors[index];
      assert monitor in monitors;
      ObserveThenApply(monitor, CheckRun, pollMatched, log, at);
      if monitor.Observe(CheckRun, pollMatched, at.nowMs).Ok? {
        var (after, decision) := monitor.Observe(CheckRun, pollMatched, at.nowMs).value;
        if ApplyDecision(after, log, decision, at).Ok? {
          var visited := ApplyDecision(after, log, decision, at).value;
          ReplaceKeeps(monitors, index, visited.survivor, log.nextEventId, visited.log.nextEventId);
        }
      }
  }

  /** Ending a monitor logs at most one event. */
  lemma EndDecisionKeeps(monitor: Monitor, exitCode: Option<int>, signal: Option<Signal>, at: Moment, nextEventId: int)
    requires MonitorInv(monitor, nextEventId) && at.nowMs >= 0
    ensures match EndDecision(monitor, exitCode, signal, at)
            case Ok((last, _)) => MonitorInv(last, nextEventId) && SameMonitor(monitor, last)
            case Err(error) => ClockFailure(error)
  {
    var matches := ExitMatches(monitor.definition.condition, at.lifecycle, exitCode, signal);
    ObserveKeeps(monitor, ExitSeen, matches, at.nowMs, nextEventId);
    var first := if monitor.definition.condition.IsExitCondition() && at.lifecycle == Exited
                 then monitor.Observe(ExitSeen, matches, at.nowMs) else Ok((monitor, NO_DECISION));
    if first.Ok? {
      ObserveKeeps(first.value.0, SessionExitSeen, false, at.nowMs, nextEventId);
    }
  }

  lemma EndOneKeeps(monitor: Monitor, log: EventLog, exitCode: Option<int>, signal: Option<Signal>, at: Moment)
    requires MonitorInv(monitor, log.nextEventId) && LogInv(log) && at.nowMs >= 0
    ensures match EndOne(monitor, log, exitCode, signal, at)
            case Ok(grown) => LogInv(grown) && LogGrows(log, grown) && grown.nextEventId <= log.nextEventId + 1
            case Err(damage) => Exhausted(damage)
  {
    EndDecisionKeeps(monitor, exitCode, signal, at, log.nextEventId);
    if EndDecision(monitor, exitCode, signal, at).Ok? {
      var (last, decision) := EndDecision(monitor, exitCode, signal, at).value;
      ApplyKeeps(last, log, decision.(remove := true), at);
    }
  }

  /** `end_monitors` empties the set with at most one event per monitor. */
  lemma {:induction false} EndAllKeeps(monitors: seq<Monitor>, log: EventLog, exitCode: Option<int>,
          signal: Option<Signal>, at: Moment)
    requires MonitorsInv(monitors, log.nextEventId) && LogInv(log) && at.nowMs >= 0
    ensures match EndAll(monitors, log, exitCode, signal, at)
            case Ok(grown) => LogInv(grown) && LogGrows(log, grown) && grown.nextEventId <= log.nextEventId + |monitors|
            case Err(damage) => Exhausted(damage)
  {
    if monitors != [] {
      assert monitors[0] in monitors;
      EndOneKeeps(monitors[0], log, exitCode, signal, at);
      if EndOne(monitors[0], log, exitCode, signal, at).Ok? {
        var next := EndOne(monitors[0], log, exitCode, signal, at).value;
        MonitorsInvTail(monitors, log.nextEventId, next.nextEventId);
        EndAllKeeps(monitors[1..], next, exitCode, signal, at);
      }
    }
  }

  // Evaluation.

  /** The parts of the set that an evaluation may not touch. */
  predicate SameHeader(before: MonitorSet, after: MonitorSet) {
    after.sessionId == before.sessionId && after.nextMonitorId == before.nextMonitorId
        && after.schemaVersion == before.schemaVersion
  }

  ghost predicate GoodStage(before: MonitorSet, after: MonitorSet) {
    && SetInv(after)
    && SameHeader(before, after)
    && LogGrows(before.log, after.log)
    && IdSet(after.monitors) <= IdSet(before.monitors)
  }

  lemma StageFromSweep(before: MonitorSet, after: MonitorSet)
    requires SetInv(before) && SameHeader(before, after) && after.lastOutputAtMs >= 0
    requires GoodSweep(before.monitors, before.log, after.monitors, after.log)
    ensures GoodStage(before, after)
  {
    forall monitor | monitor in after.monitors
      ensures Issued(monitor.monitorId, after.nextMonitorId)
    {
      assert monitor.monitorId in IdSet(before.monitors);
      var origin :| origin in before.monitors && origin.monitorId == monitor.monitorId;
    }
  }

  lemma AfterGapKeeps(candidate: MonitorSet, observation: TerminalObservation)
    requires SetInv(candidate)
    ensures match AfterGap(candidate, observation)
            case Ok(after) => GoodStage(candidate, after.candidate)
                && after.candidate.cursorOffset == candidate.cursorOffset
            case Err(damage) => Exhausted(damage)
  {
    DegradeAllKeeps(candidate.monitors, candidate.log.nextEventId);
    if AfterGap(candidate, observation).Ok? {
      StageFromSweep(candidate, AfterGap(candidate, observation).value.candidate);
    }
  }

  lemma AfterSweepKeeps(phase: Phase, before: Evaluated, observation: TerminalObservation, at: Moment)
    requires SetInv(before.candidate) && at.nowMs >= 0
    ensures match AfterSweep(phase, before, observation, at)
            case Ok(after) => GoodStage(before.candidate, after.candidate)
                && after.candidate.cursorOffset == before.candidate.cursorOffset
            case Err(damage) => Exhausted(damage)
  {
    SweepKeeps(phase, before.candidate.monitors, before.candidate.log, observation, at);
    if AfterSweep(phase, before, observation, at).Ok? {
      StageFromSweep(before.candidate, AfterSweep(phase, before, observation, at).value.candidate);
    }
  }

  lemma AfterPollKeeps(before: Evaluated, pollMatched: bool, at: Moment)
    requires SetInv(before.candidate) && at.nowMs >= 0
    ensures match AfterPoll(before, pollMatched, at)
            case Ok(after) => GoodStage(before.candidate, after.candidate)
                && after.candidate.cursorOffset == before.candidate.cursorOffset
            case Err(damage) => Exhausted(damage)
  {
    PollKeeps(before.candidate.monitors, before.candidate.log, pollMatched, at);
    if AfterPoll(before, pollMatched, at).Ok? {
      StageFromSweep(before.candidate, AfterPoll(before, pollMatched, at).value.candidate);
    }
  }

  lemma AfterLifecycleKeeps(before: Evaluated, observation: TerminalObservation, at: Moment)
    requires SetInv(before.candidate) && at.nowMs >= 0
    ensures match AfterLifecycle(before, observation, at)
            case Ok(after) => GoodStage(before.candidate, after.candidate)
                && after.candidate.cursorOffset == before.candidate.cursorOffset
            case Err(damage) => Exhausted(damage)
  {
    EndAllKeeps(before.candidate.monitors, before.candidate.log, observation.exitCode, observation.signal, at);
    if AfterLifecycle(before, observation, at).Ok? {
      StageFromSweep(before.candidate, AfterLifecycle(before, observation, at).value.candidate);
    }
  }

  lemma EvaluateAcceptedKeeps(candidate: MonitorSet, observation: TerminalObservation, pollMatched: bool, nowMs: I64)
    requires SetInv(candidate) && nowMs >= 0
    ensures match EvaluateAccepted(candidate, observation, pollMatched, nowMs)
            case Ok(after) => GoodStage(candidate, after.candidate)
                && after.candidate.cursorOffset == observation.cursorEnd
            case Err(damage) => Exhausted(damage)
  {
    var at := MomentOf(observation, nowMs);
    AfterGapKeeps(candidate, observation);
    if AfterGap(candidate, observation).Ok? {
      var gapped := AfterGap(candidate, observation).value;
      var seen := Evaluated(gapped.candidate.(lastOutputAtMs := at.nowMs), true);
      AfterSweepKeeps(OutputPhase, seen, observation, at);
      if AfterOutput(gapped, observation, at).Ok? {
        var read := AfterOutput(gapped, observation, at).value;
        assert GoodStage(candidate, read.candidate);
        var advanced := read.(candidate := read.candidate.(cursorOffset := observation.cursorEnd));
        AfterSweepKeeps(TimerPhase, advanced, observation, at);
        if AfterSweep(TimerPhase, advanced, observation, at).Ok? {
          var timed := AfterSweep(TimerPhase, advanced, observation, at).value;
          AfterPollKeeps(timed, pollMatched, at);
          if AfterPoll(timed, pollMatched, at).Ok? {
            AfterLifecycleKeeps(AfterPoll(timed, pollMatched, at).value, observation, at);
          }
        }
      }
    }
  }

  // The operations of the store.

  /** A saved set, when there is one, belongs to this session and keeps the invariant. */
  ghost predicate SavedInv(saved: Option<MonitorSet>, sessionId: Bytes) {
    ValidSessionId(sessionId) && (saved.Some? ==> SetInv(saved.value) && saved.value.sessionId == sessionId)
  }

  function Overwrite(saved: Option<MonitorSet>, written: Option<MonitorSet>): Option<MonitorSet> {
    if written.Some? then written else saved
  }

  lemma LoadSucceeds(saved: Option<MonitorSet>, sessionId: Bytes)
    requires SavedInv(saved, sessionId)
    ensures Load(saved, sessionId) == Ok(saved)
  {
    if saved.Some? {
      SetInvIsValid(saved.value);
    }
  }

  lemma EvaluateKeeps(saved: Option<MonitorSet>, sessionId: Bytes, observation: TerminalObservation,
          pollMatched: bool, nowMs: I64)
    requires SavedInv(saved, sessionId) && nowMs >= 0 && observation.cursorStart <= observation.cursorEnd
    ensures match Evaluate(saved, sessionId, observation, pollMatched, nowMs)
            case Ok(written) =>
              && SavedInv(Overwrite(saved, written), sessionId)
              && (written.Some? ==> saved.Some? && LogGrows(saved.value.log, written.value.log)
                                    && SameHeader(saved.value, written.value))
            case Err(error) => error.Corrupt? && Exhausted(error.damage)
  {
    LoadSucceeds(saved, sessionId);
    if saved.Some? {
      EvaluateAcceptedKeeps(saved.value, observation, pollMatched, nowMs);
      if EvaluateAccepted(saved.value, observation, pollMatched, nowMs).Ok? {
        SetInvIsValid(EvaluateAccepted(saved.value, observation, pollMatched, nowMs).value.candidate);
      }
    }
  }

  lemma EndSessionKeeps(saved: Option<MonitorSet>, sessionId: Bytes, lifecycle: Lifecycle, nowMs: I64)
    requires SavedInv(saved, sessionId) && nowMs >= 0
    ensures match EndSession(saved, sessionId, lifecycle, nowMs)
            case Ok(written) =>
              && SavedInv(Overwrite(saved, written), sessionId)
              && (written.Some? ==> saved.Some? && LogGrows(saved.value.log, written.value.log)
                                    && SameHeader(saved.value, written.value))
              && (saved.Some? ==> Overwrite(saved, written).value.monitors == [])
              && (saved.Some? ==> Overwrite(saved, written).value.log.nextEventId <= saved.value.log.nextEventId
                                  + |saved.value.monitors|)
            case Err(error) => error.Corrupt? && Exhausted(error.damage)
  {
    LoadSucceeds(saved, sessionId);
    if saved.Some? && saved.value.monitors != [] {
      var candidate := saved.value;
      var at := Moment(lifecycle, candidate.cursorOffset, nowMs);
      EndAllKeeps(candidate.monitors, candidate.log, None, None, at);
      if EndAll(candidate.monitors, candidate.log, None, None, at).Ok? {
        var ended :=
            candidate.(monitors := [], log := EndAll(candidate.monitors, candidate.log, None, None, at).value,
            lastLifecycle := lifecycle);
        StageFromSweep(candidate, ended);
        SetInvIsValid(ended);
      }
    }
  }

  lemma {:induction false} AfterDropsPrefix(events: seq<MonitorEvent>, base: nat, eventId: U64)
    requires forall k: nat | k < |events| :: events[k].eventId == base + 1 + k
    ensures After(events, eventId) == events[Min(Max(eventId - base, 0), |events|)..]
    decreases |events|
  {
    if events != [] {
      AfterDropsPrefix(events[1..], base + 1, eventId);
      assert events[0].eventId == base + 1;
    }
  }

  /** Acknowledging, in any order and any number of times, keeps the ids contiguous. */
  lemma AcknowledgeKeepsLog(log: EventLog, eventId: U64)
    requires LogInv(log) && 0 < eventId < log.nextEventId
    ensures LogInv(Acknowledge(log, eventId))
    ensures Acknowledge(log, eventId).nextEventId == log.nextEventId
            && Acknowledge(log, eventId).gapThrough == log.gapThrough
  {
    var base := Max(log.gapThrough, log.acknowledgedThrough);
    AfterDropsPrefix(log.events, base, eventId);
  }

  lemma InspectKeeps(saved: Option<MonitorSet>, sessionId: Bytes, after: Option<U64>, acknowledge: Option<U64>,
          maxEvents: nat)
    requires SavedInv(saved, sessionId)
    ensures match Inspect(saved, sessionId, after, acknowledge, maxEvents)
            case Ok((written, page)) =>
              && SavedInv(Overwrite(saved, written), sessionId)
              && (written.Some? ==> saved.Some? && written.value
                                    == saved.value.(log := Acknowledge(saved.value.log, acknowledge.value)))
            case Err(error) => error.InvalidArguments?
  {
    LoadSucceeds(saved, sessionId);
    if saved.Some? && acknowledge.Some? && 0 < acknowledge.value < saved.value.log.nextEventId {
      AcknowledgeKeepsLog(saved.value.log, acknowledge.value);
      SetInvIsValid(saved.value.(log := Acknowledge(saved.value.log, acknowledge.value)));
    }
  }

  // Client operations.

  lemma FreshIdIsNew(candidate: MonitorSet)
    requires SetInv(candidate) && candidate.nextMonitorId < MAX_U64
    ensures StableId(candidate.nextMonitorId).Ok?
    ensures var id := StableId(candidate.nextMonitorId).value;
            ValidMonitorId(id) && id !in IdSet(candidate.monitors) && Issued(id, candidate.nextMonitorId + 1)
  {
    var id := StableId(candidate.nextMonitorId).value;
    StableIdIsFaithful(candidate.nextMonitorId, candidate.nextMonitorId);
    if id in IdSet(candidate.monitors) {
      var monitor :| monitor in candidate.monitors && monitor.monitorId == id;
      var sequence: U64 :| 0 < sequence < candidate.nextMonitorId && StableId(sequence) == Ok(id);
      StableIdIsFaithful(sequence, candidate.nextMonitorId);
    }
  }

  lemma AddKeeps(candidate: MonitorSet, definition: Definition, prepared: bool, at: Moment)
    requires SetInv(candidate) && at.nowMs >= 0 && definition.Validate() == None
    ensures match AddMonitor(candidate, definition, prepared, at)
            case Ok((after, id)) =>
              && SetInv(after)
              && id !in IdSet(candidate.monitors)
              && StableId(candidate.nextMonitorId) == Ok(id)
              && after.nextMonitorId == candidate.nextMonitorId + 1
              && after.log == candidate.log && after.cursorOffset == candidate.cursorOffset
            case Err(error) => AcceptableError(error)
  {
    if |candidate.monitors| < MAXIMUM_MONITORS && candidate.nextMonitorId < MAX_U64 {
      FreshIdIsNew(candidate);
      var id := StableId(candidate.nextMonitorId).value;
      FreshMonitorInv(id, definition, at.nowMs, candidate.log.nextEventId);
      if NewMonitor(id, definition, at.nowMs).Ok? {
        var monitor := NewMonitor(id, definition, at.nowMs).value;
        var after :=
            candidate.(nextMonitorId := candidate.nextMonitorId + 1, monitors := candidate.monitors + [monitor]);
        assert forall m | m in after.monitors :: m in candidate.monitors || m == monitor;
        forall i: nat, j: nat | i < j < |after.monitors|
          ensures after.monitors[i].monitorId != after.monitors[j].monitorId
        {
          assert after.monitors[i] in candidate.monitors && after.monitors[i].monitorId in IdSet(candidate.monitors);
        }
        assert forall old_: Bytes :: Issued(old_, candidate.nextMonitorId) ==> Issued(old_, after.nextMonitorId);
      }
    }
  }

  lemma ReplaceAndEmitKeeps(candidate: MonitorSet, index: nat, changed: Monitor, reason: EventReason, at: Moment)
    requires SetInv(candidate) && at.nowMs >= 0 && index < |candidate.monitors|
    requires MonitorInv(changed, candidate.log.nextEventId) && changed.monitorId == candidate.monitors[index].monitorId
    ensures match ReplaceAndEmit(candidate, index, changed, reason, at)
            case Ok(after) =>
              && SetInv(after) && SameHeader(candidate, after) && LogGrows(candidate.log, after.log)
                  && after.cursorOffset == candidate.cursorOffset
              && IdSet(after.monitors) <= IdSet(candidate.monitors)
            case Err(error) => AcceptableError(error)
  {
    EmitKeeps(changed, candidate.log, reason, at);
    if Emit(changed, candidate.log, reason, at).Ok? {
      var (noted, log) := Emit(changed, candidate.log, reason, at).value;
      var after := candidate.(monitors := candidate.monitors[index := noted], log := log);
      assert candidate.monitors[index] in candidate.monitors;
      forall monitor | monitor in after.monitors
        ensures MonitorInv(monitor, log.nextEventId) && monitor.monitorId in IdSet(candidate.monitors)
      {
        assert monitor == noted || monitor in candidate.monitors;
      }
      StageFromSweep(candidate, after);
    }
  }

  ghost predicate ChangedWell(candidate: MonitorSet, changed: Result<MonitorSet, StoreError>) {
    match changed
    case Ok(after) =>
      && SetInv(after) && SameHeader(candidate, after) && LogGrows(candidate.log, after.log)
          && after.cursorOffset == candidate.cursorOffset
      && IdSet(after.monitors) <= IdSet(candidate.monitors)
    case Err(error) => AcceptableError(error)
  }

  lemma RenewedKeeps(monitor: Monitor, definition: Definition, nowMs: I64, nextEventId: int)
    requires MonitorInv(monitor, nextEventId) && nowMs >= 0 && nextEventId > 0 && monitor.runtime.generation < MAX_U64
    ensures match NewMonitor(monitor.monitorId, definition, nowMs)
            case Ok(replacement) =>
              MonitorInv(replacement.(runtime :=
                  replacement.runtime.(generation := monitor.runtime.generation + 1)), nextEventId)
              && replacement.monitorId == monitor.monitorId
            case Err(error) => error == DeadlineOverflow || definition.Validate() == Some(error)
  {
    FreshMonitorInv(monitor.monitorId, definition, nowMs, nextEventId);
  }

  lemma UpdateKeeps(candidate: MonitorSet, index: nat, definition: Definition, prepared: bool, at: Moment)
    requires SetInv(candidate) && at.nowMs >= 0 && index < |candidate.monitors|
    ensures ChangedWell(candidate, UpdateAt(candidate, index, definition, prepared, at))
  {
    var monitor := candidate.monitors[index];
    assert monitor in candidate.monitors;
    if monitor.runtime.generation < MAX_U64 {
      RenewedKeeps(monitor, definition, at.nowMs, candidate.log.nextEventId);
      if NewMonitor(monitor.monitorId, definition, at.nowMs).Ok? {
        var replacement := NewMonitor(monitor.monitorId, definition, at.nowMs).value;
        var renewed := replacement.(runtime := replacement.runtime.(generation := monitor.runtime.generation + 1));
        ReplaceAndEmitKeeps(candidate, index, renewed, Updated, at);
      }
    }
  }

  lemma PauseKeeps(candidate: MonitorSet, index: nat, at: Moment)
    requires SetInv(candidate) && at.nowMs >= 0 && index < |candidate.monitors|
    ensures ChangedWell(candidate, PauseAt(candidate, index, at))
  {
    var monitor := candidate.monitors[index];
    assert monitor in candidate.monitors;
    if monitor.Pause().1 && monitor.Pause().0.BumpGeneration().Ok? {
      ReplaceAndEmitKeeps(candidate, index, monitor.Pause().0.BumpGeneration().value, WasPaused, at);
    }
  }

  lemma ResumeAtKeeps(candidate: MonitorSet, index: nat, at: Moment)
    requires SetInv(candidate) && at.nowMs >= 0 && index < |candidate.monitors|
    ensures ChangedWell(candidate, ResumeAt(candidate, index, at))
  {
    var monitor := candidate.monitors[index];
    assert monitor in candidate.monitors;
    ResumeKeeps(monitor, at.nowMs, candidate.log.nextEventId);
    if monitor.Resume(at.nowMs).Ok? {
      var (resumed, did) := monitor.Resume(at.nowMs).value;
      if did && resumed.BumpGeneration().Ok? {
        ReplaceAndEmitKeeps(candidate, index, resumed.BumpGeneration().value, Resumed, at);
      }
    }
  }

  lemma RemoveKeeps(candidate: MonitorSet, index: nat, at: Moment)
    requires SetInv(candidate) && at.nowMs >= 0 && index < |candidate.monitors|
    ensures ChangedWell(candidate, RemoveAt(candidate, index, at))
  {
    var monitor := candidate.monitors[index];
    assert monitor in candidate.monitors;
    EmitKeeps(monitor, candidate.log, Removed, at);
    if Emit(monitor, candidate.log, Removed, at).Ok? {
      var (_, log) := Emit(monitor, candidate.log, Removed, at).value;
      ReplaceKeeps(candidate.monitors, index, None, candidate.log.nextEventId, log.nextEventId);
      StageFromSweep(candidate, candidate.(monitors := Replace(candidate.monitors, index, None), log := log));
    }
  }

  lemma ChangeKeeps(candidate: MonitorSet, operation: Operation, prepared: bool, at: Moment)
    requires SetInv(candidate) && at.nowMs >= 0 && !operation.Add?
    ensures ChangedWell(candidate, ChangeMonitor(candidate, operation, prepared, at))
  {
    FoundIndexInRange(candidate.monitors, operation.monitorId);
    match FindMonitor(candidate.monitors, operation.monitorId)
    case None =>
    case Some(index) =>
      match operation
      case Update(_, definition) => UpdateKeeps(candidate, index, definition, prepared, at);
      case Pause(_) => PauseKeeps(candidate, index, at);
      case Resume(_) => ResumeAtKeeps(candidate, index, at);
      case Remove(_) => RemoveKeeps(candidate, index, at);
  }

  lemma ResumeKeeps(monitor: Monitor, nowMs: I64, nextEventId: int)
    requires MonitorInv(monitor, nextEventId) && nowMs >= 0
    ensures match monitor.Resume(nowMs)
            case Ok((after, _)) => MonitorInv(after, nextEventId) && SameMonitor(monitor, after)
            case Err(error) => ClockFailure(error)
  {
  }

  lemma OperateKeeps(saved: Option<MonitorSet>, sessionId: Bytes, operation: Operation, prepared: bool, at: Moment)
    requires SavedInv(saved, sessionId) && at.nowMs >= 0
    ensures match Operate(saved, sessionId, operation, prepared, at)
            case Ok((after, id)) =>
              && SavedInv(Some(after), sessionId)
              && LogGrows(if saved.Some? then saved.value.log else EventLog(1, 0, 0, []), after.log)
              && (saved.Some? ==> after.cursorOffset == saved.value.cursorOffset)
              && (saved.None? ==> after.cursorOffset == at.cursorOffset)
              && after.nextMonitorId == (if saved.Some? then saved.value.nextMonitorId else 1)
                  + (if operation.Add? then 1 else 0)
              && (operation.Add? ==> StableId(after.nextMonitorId - 1) == Ok(id))
            case Err(error) => AcceptableError(error)
  {
    LoadSucceeds(saved, sessionId);
    var before := if saved.Some? then saved.value else EmptySet(sessionId, at.cursorOffset, at.lifecycle, at.nowMs);
    var candidate := before.(lastLifecycle := at.lifecycle);
    assert SetInv(candidate);
    if operation.Validate() == None {
      if operation.Add? {
        AddKeeps(candidate, operation.definition, prepared, at);
        if AddMonitor(candidate, operation.definition, prepared, at).Ok? {
          SetInvIsValid(AddMonitor(candidate, operation.definition, prepared, at).value.0);
        }
      } else {
        ChangeKeeps(candidate, operation, prepared, at);
        if ChangeMonitor(candidate, operation, prepared, at).Ok? {
          SetInvIsValid(ChangeMonitor(candidate, operation, prepared, at).value);
        }
      }
    }
  }

  /** The set an operation starts from: the saved one or an empty one, with the lifecycle noted. */
  function OperatedOn(saved: Option<MonitorSet>, sessionId: Bytes, at: Moment): MonitorSet {
    var before := if saved.Some? then saved.value else EmptySet(sessionId, at.cursorOffset, at.lifecycle, at.nowMs);
    before.(lastLifecycle := at.lifecycle)
  }

  /** What a successful operation amounts to. */
  lemma OperateUnfolds(saved: Option<MonitorSet>, sessionId: Bytes, operation: Operation, prepared: bool, at: Moment,
          after: MonitorSet, id: Bytes)
    requires SavedInv(saved, sessionId) && at.nowMs >= 0
    requires Operate(saved, sessionId, operation, prepared, at) == Ok((after, id))
    ensures SetInv(OperatedOn(saved, sessionId, at)) && operation.Validate() == None
    ensures operation.Add? ==> AddMonitor(OperatedOn(saved, sessionId, at), operation.definition, prepared, at)
                               == Ok((after, id))
    ensures !operation.Add? ==> ChangeMonitor(OperatedOn(saved, sessionId, at), operation, prepared, at) == Ok(after)
                                && id == operation.monitorId
  {
    LoadSucceeds(saved, sessionId);
  }

  // Installing the first monitors.

  predicate NumberedAs(monitor: Monitor, sequence: int) {
    0 < sequence <= MAX_U64 && StableId(sequence) == Ok(monitor.monitorId) && MonitorInv(monitor, 1)
  }

  lemma {:induction false} BuildInitialKeeps(definitions: seq<Definition>, sequence: U64,
          prepared: seq<bool>, nowMs: I64)
    requires |prepared| == |definitions| && 0 < sequence && sequence + |definitions| < MAX_U64 && nowMs >= 0
    ensures match BuildInitial(definitions, sequence, prepared, nowMs)
            case Ok(monitors) => |monitors| == |definitions|
                && forall i: nat | i < |monitors| :: NumberedAs(monitors[i], sequence + i)
            case Err(error) => error.InvalidArguments?
    decreases |definitions|
  {
    if definitions != [] {
      StableIdIsFaithful(sequence, sequence);
      FreshMonitorInv(StableId(sequence).value, definitions[0], nowMs, 1);
      BuildInitialKeeps(definitions[1..], sequence + 1, prepared[1..], nowMs);
      if BuildInitial(definitions, sequence, prepared, nowMs).Ok? {
        var monitors := BuildInitial(definitions, sequence, prepared, nowMs).value;
        assert NumberedAs(monitors[0], sequence);
        forall i: nat | i < |monitors|
          ensures NumberedAs(monitors[i], sequence + i)
        {
          assert i > 0 ==> monitors[i] == monitors[1..][i - 1]
                           && NumberedAs(monitors[1..][i - 1], sequence + 1 + (i - 1));
        }
      }
    }
  }

  lemma NumberedMonitorsInv(monitors: seq<Monitor>, nextMonitorId: U64)
    requires nextMonitorId == |monitors| + 1
    requires forall i: nat | i < |monitors| :: NumberedAs(monitors[i], 1 + i)
    ensures MonitorsInv(monitors, 1)
    ensures forall monitor | monitor in monitors :: Issued(monitor.monitorId, nextMonitorId)
  {
    forall i: nat, j: nat | i < j < |monitors|
      ensures monitors[i].monitorId != monitors[j].monitorId
    {
      assert NumberedAs(monitors[i], 1 + i) && NumberedAs(monitors[j], 1 + j);
      StableIdIsFaithful(1 + i, 1 + j);
    }
    forall monitor | monitor in monitors
      ensures MonitorInv(monitor, 1) && Issued(monitor.monitorId, nextMonitorId)
    {
      var i: nat :| i < |monitors| && monitors[i] == monitor;
      assert NumberedAs(monitors[i], 1 + i);
    }
  }

  lemma InstallKeeps(saved: Option<MonitorSet>, sessionId: Bytes, definitions: seq<Definition>, prepared: seq<bool>,
          lifecycle: Lifecycle, nowMs: I64)
    requires SavedInv(saved, sessionId) && nowMs >= 0 && |prepared| == |definitions|
    ensures match InstallInitial(saved, sessionId, definitions, prepared, lifecycle, nowMs)
            case Ok(written) =>
              && SavedInv(Overwrite(saved, written), sessionId)
              && (written.Some? ==>
                    && saved.None?
                    && written.value.cursorOffset == 0
                    && written.value.log == EventLog(1, 0, 0, [])
                    && written.value.nextMonitorId == |definitions| + 1
                    && |written.value.monitors| == |definitions|
                    && forall i: nat | i < |definitions| :: NumberedAs(written.value.monitors[i], 1 + i))
            case Err(error) => error.InvalidArguments? || (saved.Some? && error == Corrupt(InitialSetExists))
  {
    LoadSucceeds(saved, sessionId);
    if saved.None? && definitions != [] && |definitions| <= MAXIMUM_MONITORS {
      BuildInitialKeeps(definitions, 1, prepared, nowMs);
      if BuildInitial(definitions, 1, prepared, nowMs).Ok? {
        var monitors := BuildInitial(definitions, 1, prepared, nowMs).value;
        NumberedMonitorsInv(monitors, |monitors| + 1);
        SetInvIsValid(EmptySet(sessionId, 0, lifecycle, nowMs).(nextMonitorId := |monitors| + 1, monitors := monitors));
      }
    }
  }
}
