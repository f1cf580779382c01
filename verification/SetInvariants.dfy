// What every store operation keeps: the log accounts for every event id, identifiers are never
// reused, and nothing the store itself does can produce a set that `save` refuses.

module SetInvariants {
  import opened Basics
  import opened Schedule
  import opened Monitors
  import opened MonitorSets
  import BitWords
  import M = Matcher
  import MatcherCorrect

  // The invariant.

  /** Every id in the log is the successor of the one before; nothing is missing above the base. */
  predicate LogInv(log: EventLog) {
    var base := Max(log.gapThrough, log.acknowledgedThrough);
    && log.nextEventId == base + 1 + |log.events|
    && |log.events| <= MAXIMUM_EVENTS
    && forall k: nat | k < |log.events| :: log.events[k].eventId == base + 1 + k && WellFormedEvent(log.events[k])
  }

  /** Between acknowledgements the log only issues ids and gives up its oldest ones. */
  predicate LogGrows(before: EventLog, after: EventLog) {
    && before.nextEventId <= after.nextEventId
    && before.acknowledgedThrough == after.acknowledgedThrough
    && before.gapThrough <= after.gapThrough
  }

  predicate MonitorInv(monitor: Monitor, nextEventId: int) {
    var runtime := monitor.runtime;
    && monitor.Validate() == None
    && runtime.lastEventId < nextEventId
    && (monitor.definition.notify.Interval? && runtime.state != Degraded ==> runtime.nextNotificationMs.Some?)
    && (runtime.state == Degraded ==>
          && monitor.definition.condition.IsGapSensitive()
          && runtime.nextCheckMs == None
          && runtime.nextNotificationMs == None
          && runtime.matcherStates == BitWords.ZERO_WORDS)
  }

  /** The identifier was generated from a sequence number already used up. */
  ghost predicate Issued(id: Bytes, nextMonitorId: U64) {
    exists sequence: U64 :: 0 < sequence < nextMonitorId && StableId(sequence) == Ok(id)
  }

  predicate DistinctIds(monitors: seq<Monitor>) {
    forall i: nat, j: nat | i < j < |monitors| :: monitors[i].monitorId != monitors[j].monitorId
  }

  function IdSet(monitors: seq<Monitor>): set<Bytes> {
    set monitor | monitor in monitors :: monitor.monitorId
  }

  predicate MonitorsInv(monitors: seq<Monitor>, nextEventId: int) {
    DistinctIds(monitors) && forall monitor | monitor in monitors :: MonitorInv(monitor, nextEventId)
  }

  ghost predicate SetInv(candidate: MonitorSet) {
    && candidate.schemaVersion == SCHEMA_VERSION
    && ValidSessionId(candidate.sessionId)
    && candidate.nextMonitorId > 0
    && candidate.lastOutputAtMs >= 0
    && |candidate.monitors| <= MAXIMUM_MONITORS
    && MonitorsInv(candidate.monitors, candidate.log.nextEventId)
    && (forall monitor | monitor in candidate.monitors :: Issued(monitor.monitorId, candidate.nextMonitorId))
    && LogInv(candidate.log)
  }

  /** Running out of a 64-bit counter or of representable deadlines: the only inner failures left. */
  predicate Exhausted(damage: Damage) {
    || damage == EventIdsExhausted
    || damage == MonitorIdsExhausted
    || damage == GenerationExhausted
    || damage == BadMonitor(CounterOverflow)
    || damage == BadMonitor(DeadlineOverflow)
  }

  predicate AcceptableError(error: StoreError) {
    error.Corrupt? ==> Exhausted(error.damage)
  }

  // The invariant implies what `load` and `save` check.

  lemma {:induction false} NoBadMonitor(monitors: seq<Monitor>, nextEventId: int)
    requires forall monitor | monitor in monitors :: MonitorInv(monitor, nextEventId)
    ensures FirstBadMonitor(monitors) == None
  {
    if monitors != [] {
      assert monitors[0] in monitors;
      NoBadMonitor(monitors[1..], nextEventId);
    }
  }

  lemma {:induction false} ContiguousAscends(events: seq<MonitorEvent>, previous: int, next: U64)
    requires forall k: nat | k < |events| :: events[k].eventId == previous + 1 + k && WellFormedEvent(events[k])
    requires previous + |events| < next
    ensures EventsAscend(events, previous, next)
  {
    if events != [] {
      ContiguousAscends(events[1..], events[0].eventId, next);
    }
  }

  lemma SetInvIsValid(candidate: MonitorSet)
    requires SetInv(candidate)
    ensures Validate(candidate, candidate.sessionId) == None
    ensures Save(candidate) == Ok(candidate)
  {
    NoBadMonitor(candidate.monitors, candidate.log.nextEventId);
    ContiguousAscends(candidate.log.events, Max(candidate.log.gapThrough, candidate.log.acknowledgedThrough),
        candidate.log.nextEventId);
  }

  /** Every id ever issued is retained, acknowledged or covered by the reported gap. */
  lemma EveryIdAccountedFor(log: EventLog, id: nat)
    requires LogInv(log) && 0 < id
    ensures id < log.nextEventId <==>
            || id <= log.acknowledgedThrough
            || id <= log.gapThrough
            || exists event :: event in log.events && event.eventId == id
    ensures (exists event :: event in log.events && event.eventId == id) ==>
            id > log.acknowledgedThrough && id > log.gapThrough
  {
    var base := Max(log.gapThrough, log.acknowledgedThrough);
    if base < id < log.nextEventId {
      assert log.events[id - base - 1] in log.events;
    }
  }

  // Monitor transitions.

  predicate SameMonitor(before: Monitor, after: Monitor) {
    after.monitorId == before.monitorId && after.definition == before.definition
  }

  predicate ClockFailure(error: MonitorError) {
    error == CounterOverflow || error == DeadlineOverflow
  }

  lemma ObserveKeeps(monitor: Monitor, observation: Observation, conditionMatches: bool, nowMs: I64, nextEventId: int)
    requires MonitorInv(monitor, nextEventId) && nowMs >= 0
    ensures match monitor.Observe(observation, conditionMatches, nowMs)
            case Ok((after, _)) => MonitorInv(after, nextEventId) && SameMonitor(monitor, after)
            case Err(error) => ClockFailure(error)
  {
  }

  lemma TimerKeeps(monitor: Monitor, nowMs: I64, nextEventId: int)
    requires MonitorInv(monitor, nextEventId) && nowMs >= 0
    ensures match monitor.TimerDecision(nowMs)
            case Ok((after, _)) => MonitorInv(after, nextEventId) && SameMonitor(monitor, after)
            case Err(error) => ClockFailure(error)
  {
  }

  lemma FeedKeeps(monitor: Monitor, bytes: Bytes, nextEventId: int)
    requires MonitorInv(monitor, nextEventId) && !monitor.Inert()
    ensures match monitor.FeedOutput(bytes)
            case Ok((after, _)) => MonitorInv(after, nextEventId) && SameMonitor(monitor, after) && !after.Inert()
            case Err(_) => false
  {
  }

  lemma DegradeKeeps(monitor: Monitor, nextEventId: int)
    requires MonitorInv(monitor, nextEventId)
    ensures match monitor.DegradeForRawGap()
            case Ok((after, _)) => MonitorInv(after, nextEventId) && SameMonitor(monitor, after)
            case Err(error) => ClockFailure(error)
  {
  }

  lemma FreshMonitorInv(id: Bytes, definition: Definition, nowMs: I64, nextEventId: int)
    requires nowMs >= 0 && nextEventId > 0 && ValidMonitorId(id)
    ensures match NewMonitor(id, definition, nowMs)
            case Ok(monitor) => MonitorInv(monitor, nextEventId) && monitor.monitorId == id
                && monitor.definition == definition
            case Err(error) => error == DeadlineOverflow || definition.Validate() == Some(error)
  {
  }

  // The log.

  /** Appending the next event, and evicting the oldest when full, keeps the ids contiguous. */
  lemma AppendKeepsLog(log: EventLog, event: MonitorEvent)
    requires LogInv(log) && log.nextEventId < MAX_U64
    requires event.eventId == log.nextEventId && WellFormedEvent(event)
    ensures var grown := Trim(log.(nextEventId := log.nextEventId + 1, events := log.events + [event]));
            LogInv(grown) && LogGrows(log, grown) && grown.nextEventId == log.nextEventId + 1 && event in grown.events
  {
    var appended := log.(nextEventId := log.nextEventId + 1, events := log.events + [event]);
    if |appended.events| > MAXIMUM_EVENTS {
      var trimmed :=
          appended.(events := appended.events[1..], gapThrough := Max(appended.gapThrough, appended.events[0].eventId));
      assert Trim(appended) == Trim(trimmed) == trimmed;
      assert trimmed.events[|trimmed.events| - 1] == event;
    } else {
      assert appended.events[|appended.events| - 1] == event;
    }
  }

  lemma EmitKeeps(monitor: Monitor, log: EventLog, reason: EventReason, at: Moment)
    requires MonitorInv(monitor, log.nextEventId) && LogInv(log) && at.nowMs >= 0
    ensures match Emit(monitor, log, reason, at)
            case Ok((noted, grown)) =>
              && MonitorInv(noted, grown.nextEventId) && SameMonitor(monitor, noted)
              && LogInv(grown) && LogGrows(log, grown) && grown.nextEventId == log.nextEventId + 1
              && noted.runtime.conditionMatched == monitor.runtime.conditionMatched
              && noted.runtime.matcherStates == monitor.runtime.matcherStates
              && noted.runtime.state == monitor.runtime.state
              && noted.runtime.lifetimeDeadlineMs == monitor.runtime.lifetimeDeadlineMs
            case Err(damage) => Exhausted(damage)
  {
    if log.nextEventId < MAX_U64 {
      AppendKeepsLog(log, EventFor(monitor, log.nextEventId, reason, at));
    }
  }

  predicate GoodVisit(monitor: Monitor, log: EventLog, visited: Visited) {
    && LogInv(visited.log)
    && LogGrows(log, visited.log)
    && visited.log.nextEventId <= log.nextEventId + 1
    && (visited.survivor.Some? ==>
          MonitorInv(visited.survivor.value, visited.log.nextEventId) && SameMonitor(monitor, visited.survivor.value))
  }

  lemma ApplyKeeps(monitor: Monitor, log: EventLog, decision: Decision, at: Moment)
    requires MonitorInv(monitor, log.nextEventId) && LogInv(log) && at.nowMs >= 0
    ensures match ApplyDecision(monitor, log, decision, at)
            case Ok(visited) => GoodVisit(monitor, log, visited)
            case Err(damage) => Exhausted(damage)
  {
    if decision.notify.Some? {
      EmitKeeps(monitor, log, decision.notify.value, at);
    }
  }

  // Sweeps.

  lemma FeedVisitKeeps(monitor: Monitor, log: EventLog, observation: TerminalObservation, at: Moment)
    requires MonitorInv(monitor, log.nextEventId) && LogInv(log) && at.nowMs >= 0
    requires !monitor.Inert() && monitor.definition.condition.ReadsOutput()
    ensures match VisitOutput(monitor, log, observation, at)
            case Ok(visited) => GoodVisit(monitor, log, visited)
            case Err(damage) => Exhausted(damage)
  {
    FeedKeeps(monitor, observation.output, log.nextEventId);
    var (fed, matched) := monitor.FeedOutput(observation.output).value;
    ObserveThenApply(fed, OutputSeen, matched, log, at);
  }

  lemma ScreenVisitKeeps(monitor: Monitor, log: EventLog, observation: TerminalObservation, at: Moment)
    requires MonitorInv(monitor, log.nextEventId) && LogInv(log) && at.nowMs >= 0
    requires !monitor.Inert() && monitor.definition.condition.ScreenMatches?
    ensures match VisitOutput(monitor, log, observation, at)
            case Ok(visited) => GoodVisit(monitor, log, visited)
            case Err(damage) => Exhausted(damage)
  {
    ObserveThenApply(monitor, ScreenSeen,
        ScreenMatched(monitor.definition.condition.pattern, observation.screenText), log, at);
  }

  lemma VisitOutputKeeps(monitor: Monitor, log: EventLog, observation: TerminalObservation, at: Moment)
    requires MonitorInv(monitor, log.nextEventId) && LogInv(log) && at.nowMs >= 0
    ensures match VisitOutput(monitor, log, observation, at)
            case Ok(visited) => GoodVisit(monitor, log, visited)
            case Err(damage) => Exhausted(damage)
  {
    if !monitor.Inert() && monitor.definition.condition.ReadsOutput() {
      FeedVisitKeeps(monitor, log, observation, at);
    } else if !monitor.Inert() && monitor.definition.condition.ScreenMatches? {
      ScreenVisitKeeps(monitor, log, observation, at);
    }
  }

  lemma VisitTimerKeeps(monitor: Monitor, log: EventLog, at: Moment)
    requires MonitorInv(monitor, log.nextEventId) && LogInv(log) && at.nowMs >= 0
    ensures match VisitTimer(monitor, log, at)
            case Ok(visited) => GoodVisit(monitor, log, visited)
            case Err(damage) => Exhausted(damage)
  {
    if monitor.QuietDue(at.nowMs) {
      ObserveThenApply(monitor, QuietElapsed, true, log, at);
    } else {
      TimerKeeps(monitor, at.nowMs, log.nextEventId);
      if monitor.TimerDecision(at.nowMs).Ok? {
        var (after, decision) := monitor.TimerDecision(at.nowMs).value;
        ApplyKeeps(after, log, decision, at);
      }
    }
  }

  lemma VisitKeeps(phase: Phase, monitor: Monitor, log: EventLog, observation: TerminalObservation, at: Moment)
    requires MonitorInv(monitor, log.nextEventId) && LogInv(log) && at.nowMs >= 0
    ensures match Visit(phase, monitor, log, observation, at)
            case Ok(visited) => GoodVisit(monitor, log, visited)
            case Err(damage) => Exhausted(damage)
  {
    match phase {
      case OutputPhase => VisitOutputKeeps(monitor, log, observation, at);
      case TimerPhase => VisitTimerKeeps(monitor, log, at);
    }
  }

  lemma ObserveThenApply(monitor: Monitor, observation: Observation, matched: bool, log: EventLog, at: Moment)
    requires MonitorInv(monitor, log.nextEventId) && LogInv(log) && at.nowMs >= 0
    ensures match monitor.Observe(observation, matched, at.nowMs)
            case Err(error) => ClockFailure(error)
            case Ok((after, decision)) =>
              && MonitorInv(after, log.nextEventId) && SameMonitor(monitor, after)
              && match ApplyDecision(after, log, decision, at)
                 case Ok(visited) => GoodVisit(monitor, log, visited)
                 case Err(damage) => Exhausted(damage)
  {
    ObserveKeeps(monitor, observation, matched, at.nowMs, log.nextEventId);
    if monitor.Observe(observation, matched, at.nowMs).Ok? {
      var (after, decision) := monitor.Observe(observation, matched, at.nowMs).value;
      ApplyKeeps(after, log, decision, at);
    }
  }

  predicate GoodSweep(monitors: seq<Monitor>, log: EventLog, after: seq<Monitor>, grown: EventLog) {
    && MonitorsInv(after, grown.nextEventId)
    && LogInv(grown)
    && LogGrows(log, grown)
    && |after| <= |monitors|
    && IdSet(after) <= IdSet(monitors)
  }

  lemma MonitorsInvTail(monitors: seq<Monitor>, nextEventId: int, later: int)
    requires monitors != [] && MonitorsInv(monitors, nextEventId) && nextEventId <= later
    ensures MonitorInv(monitors[0], nextEventId)
    ensures MonitorsInv(monitors[1..], later)
    ensures monitors[0].monitorId !in IdSet(monitors[1..])
    ensures IdSet(monitors) == {monitors[0].monitorId} + IdSet(monitors[1..])
  {
    assert monitors[0] in monitors;
    assert forall monitor | monitor in monitors[1..] :: monitor in monitors;
    assert forall monitor | monitor in monitors :: monitor == monitors[0] || monitor in monitors[1..];
  }

  lemma MonitorsInvCons(first: Option<Monitor>, rest: seq<Monitor>, nextEventId: int)
    requires MonitorsInv(rest, nextEventId)
    requires first.Some? ==> MonitorInv(first.value, nextEventId) && first.value.monitorId !in IdSet(rest)
    ensures var all := (if first.Some? then [first.value] else []) + rest;
            MonitorsInv(all, nextEventId) && IdSet(all) == IdSet(rest) + if first.Some?
                then {first.value.monitorId} else {}
  {
    var all := (if first.Some? then [first.value] else []) + rest;
    assert forall monitor :: monitor in all <==> monitor in rest || first == Some(monitor);
    forall i: nat, j: nat | i < j < |all|
      ensures all[i].monitorId != all[j].monitorId
    {
      if first.Some? {
        assert all[j] in rest && all[j].monitorId in IdSet(rest);
        assert i > 0 ==> all[i] == rest[i - 1] && all[j] == rest[j - 1];
      }
    }
    if first.Some? {
      assert first.value in all;
    }
    assert forall id :: id in IdSet(rest) ==> id in IdSet(all);
  }

  lemma {:induction false} SweepKeeps(phase: Phase, monitors: seq<Monitor>, log: EventLog,
          observation: TerminalObservation, at: Moment)
    requires MonitorsInv(monitors, log.nextEventId) && LogInv(log) && at.nowMs >= 0
    ensures match Sweep(phase, monitors, log, observation, at)
            case Ok(swept) => GoodSweep(monitors, log, swept.monitors, swept.log)
            case Err(damage) => Exhausted(damage)
  {
    if monitors != [] {
      assert monitors[0] in monitors;
      VisitKeeps(phase, monitors[0], log, observation, at);
      if Visit(phase, monitors[0], log, observation, at).Ok? {
        var visited := Visit(phase, monitors[0], log, observation, at).value;
        MonitorsInvTail(monitors, log.nextEventId, visited.log.nextEventId);
        SweepKeeps(phase, monitors[1..], visited.log, observation, at);
        if Sweep(phase, monitors[1..], visited.log, observation, at).Ok? {
          var rest := Sweep(phase, monitors[1..], visited.log, observation, at).value;
          MonitorsInvCons(visited.survivor, rest.monitors, rest.log.nextEventId);
        }
      }
    }
  }
}
