// That the store does its work: with room left in its counters and its clock, nothing it does fails.

module Headroom {
  import opened Basics
  import opened Schedule
  import opened Monitors
  import opened MonitorSets
  import opened SetInvariants
  import opened StoreTheorems
  import opened Saving

  // Room.

  /** So many more checks, events and generations can be counted, and what is due is due at a time of day. */
  predicate HasRoom(monitor: Monitor, room: nat) {
    var runtime := monitor.runtime;
    && runtime.checkCount + room <= MAX_U64
    && runtime.notificationCount + room <= MAX_U64
    && runtime.generation + room <= MAX_U64
    && (runtime.nextCheckMs.Some? ==> runtime.nextCheckMs.value >= 0)
    && (runtime.nextNotificationMs.Some? ==> runtime.nextNotificationMs.value >= 0)
  }

  predicate AllHaveRoom(monitors: seq<Monitor>, room: nat) {
    forall monitor | monitor in monitors :: HasRoom(monitor, room)
  }

  predicate LogHasRoom(log: EventLog, room: nat) {
    log.nextEventId + room <= MAX_U64
  }

  /** A clock that is not before its epoch and more than a day from its end. */
  predicate ClockHasRoom(nowMs: I64) {
    0 <= nowMs && nowMs + MAXIMUM_SCHEDULE_MS <= MAX_I64
  }

  lemma AdvanceHasRoom(due: I64, intervalMs: U64, nowMs: I64)
    requires due >= 0 && ValidSchedule(intervalMs) && ClockHasRoom(nowMs)
    ensures AdvanceDeadline(due, intervalMs, nowMs).Ok? && AdvanceDeadline(due, intervalMs, nowMs).value >= 0
  {
    if due <= nowMs {
      NextStep(nowMs - due, intervalMs);
    }
  }

  lemma NextStep(elapsed: int, interval: int)
    requires 0 <= elapsed && 0 < interval
    ensures 0 < (elapsed / interval + 1) * interval <= elapsed + interval
  {
    var whole, rest := elapsed / interval, elapsed % interval;
    assert elapsed == interval * whole + rest;
    assert (whole + 1) * interval == interval * whole + interval;
  }

  // One monitor.

  lemma RescheduleHasRoom(monitor: Monitor, observation: Observation, nowMs: I64, nextEventId: int, room: nat)
    requires MonitorInv(monitor, nextEventId) && HasRoom(monitor, room) && ClockHasRoom(nowMs)
    ensures monitor.Rescheduled(observation, nowMs).Ok?
            && HasRoom(monitor.Rescheduled(observation, nowMs).value, room)
  {
    if monitor.definition.checkIntervalMs.Some? {
      AdvanceHasRoom(if monitor.runtime.nextCheckMs.Some? then monitor.runtime.nextCheckMs.value else nowMs,
          monitor.definition.checkIntervalMs.value, nowMs);
    }
  }

  lemma ObserveHasRoom(monitor: Monitor, observation: Observation, matches: bool, nowMs: I64, nextEventId: int,
          room: nat, more: nat)
    requires MonitorInv(monitor, nextEventId) && more == room + 1 && HasRoom(monitor, more) && ClockHasRoom(nowMs)
    ensures monitor.Observe(observation, matches, nowMs).Ok?
            && HasRoom(monitor.Observe(observation, matches, nowMs).value.0, room)
  {
    if !monitor.Inert() {
      CheckHasRoom(monitor, observation, matches, nowMs, nextEventId, room, more);
    }
  }

  lemma CheckHasRoom(monitor: Monitor, observation: Observation, matches: bool, nowMs: I64, nextEventId: int,
          room: nat, more: nat)
    requires MonitorInv(monitor, nextEventId) && more == room + 1 && HasRoom(monitor, more) && ClockHasRoom(nowMs)
    ensures monitor.Checked(observation, matches, nowMs).Ok?
            && HasRoom(monitor.Checked(observation, matches, nowMs).value.0, room)
  {
    var counted := monitor.(runtime := monitor.runtime.(checkCount := monitor.runtime.checkCount + 1));
    StillKept(monitor, nextEventId);
    var moved := MoveHasRoom(counted, observation, nowMs, nextEventId, room);
    CheckUnfolds(monitor, counted, moved, observation, matches, nowMs);
    NoticeHasRoom(moved, matches, room);
  }

  lemma MoveHasRoom(monitor: Monitor, observation: Observation, nowMs: I64, nextEventId: int, room: nat)
    returns (moved: Monitor)
    requires MonitorInv(monitor, nextEventId) && HasRoom(monitor, room) && ClockHasRoom(nowMs)
    ensures MovesTo(monitor, observation, nowMs, moved) && HasRoom(moved, room)
  {
    RescheduleHasRoom(monitor, observation, nowMs, nextEventId, room);
    moved := monitor.Rescheduled(observation, nowMs).value;
  }

  predicate MovesTo(monitor: Monitor, observation: Observation, nowMs: I64, moved: Monitor) {
    monitor.Rescheduled(observation, nowMs) == Ok(moved)
  }

  lemma CheckUnfolds(monitor: Monitor, counted: Monitor, moved: Monitor, observation: Observation, matches: bool,
          nowMs: I64)
    requires monitor.runtime.checkCount < MAX_U64
    requires counted == monitor.(runtime := monitor.runtime.(checkCount := monitor.runtime.checkCount + 1))
    requires MovesTo(counted, observation, nowMs, moved)
    ensures monitor.Checked(observation, matches, nowMs) == Ok(moved.Noticed(matches))
  {
  }

  lemma NoticeHasRoom(monitor: Monitor, matches: bool, room: nat)
    requires HasRoom(monitor, room)
    ensures HasRoom(monitor.Noticed(matches).0, room)
  {
  }

  lemma StillKept(monitor: Monitor, nextEventId: int)
    requires MonitorInv(monitor, nextEventId) && monitor.runtime.checkCount < MAX_U64
    ensures MonitorInv(monitor.(runtime := monitor.runtime.(checkCount := monitor.runtime.checkCount + 1)), nextEventId)
  {
  }

  lemma TimerHasRoom(monitor: Monitor, nowMs: I64, nextEventId: int, room: nat)
    requires MonitorInv(monitor, nextEventId) && HasRoom(monitor, room) && ClockHasRoom(nowMs)
    ensures monitor.TimerDecision(nowMs).Ok? && HasRoom(monitor.TimerDecision(nowMs).value.0, room)
  {
    if monitor.definition.notify.Interval? && monitor.runtime.nextNotificationMs.Some? {
      AdvanceHasRoom(monitor.runtime.nextNotificationMs.value, monitor.definition.notify.intervalMs, nowMs);
    }
  }

  lemma EmitHasRoom(monitor: Monitor, log: EventLog, reason: EventReason, at: Moment, room: nat, more: nat)
    requires MonitorInv(monitor, log.nextEventId) && LogInv(log) && LogHasRoom(log, 1)
    requires more == room + 1 && HasRoom(monitor, more)
    ensures Emit(monitor, log, reason, at).Ok? && HasRoom(Emit(monitor, log, reason, at).value.0, room)
  {
  }

  lemma ApplyHasRoom(monitor: Monitor, log: EventLog, decision: Decision, at: Moment, room: nat, more: nat)
    requires MonitorInv(monitor, log.nextEventId) && LogInv(log) && LogHasRoom(log, 1) && at.nowMs >= 0
    requires more == room + 1 && HasRoom(monitor, more)
    ensures ApplyDecision(monitor, log, decision, at).Ok?
    ensures var visited := ApplyDecision(monitor, log, decision, at).value;
            visited.survivor.Some? ==> HasRoom(visited.survivor.value, room)
  {
    if decision.notify.Some? {
      EmitHasRoom(monitor, log, decision.notify.value, at, room, more);
    }
  }

  predicate WellVisited(step: Result<Visited, Damage>, room: nat) {
    step.Ok? && (step.value.survivor.Some? ==> HasRoom(step.value.survivor.value, room))
  }

  lemma OutputVisitHasRoom(monitor: Monitor, log: EventLog, observation: TerminalObservation, at: Moment, room: nat)
    requires MonitorInv(monitor, log.nextEventId) && LogInv(log) && LogHasRoom(log, 1)
    requires HasRoom(monitor, room + 2) && ClockHasRoom(at.nowMs)
    ensures WellVisited(VisitOutput(monitor, log, observation, at), room)
  {
    var more, most := room + 1, room + 2;
    if !monitor.Inert() && monitor.definition.condition.ReadsOutput() {
      FeedKeeps(monitor, observation.output, log.nextEventId);
      var (fed, matched) := monitor.FeedOutput(observation.output).value;
      ObserveHasRoom(fed, OutputSeen, matched, at.nowMs, log.nextEventId, more, most);
      ObserveKeeps(fed, OutputSeen, matched, at.nowMs, log.nextEventId);
      var (after, decision) := fed.Observe(OutputSeen, matched, at.nowMs).value;
      ApplyHasRoom(after, log, decision, at, room, more);
    } else if !monitor.Inert() && monitor.definition.condition.ScreenMatches? {
      var matched := ScreenMatched(monitor.definition.condition.pattern, observation.screenText);
      ObserveHasRoom(monitor, ScreenSeen, matched, at.nowMs, log.nextEventId, more, most);
      ObserveKeeps(monitor, ScreenSeen, matched, at.nowMs, log.nextEventId);
      var (after, decision) := monitor.Observe(ScreenSeen, matched, at.nowMs).value;
      ApplyHasRoom(after, log, decision, at, room, more);
    }
  }

  lemma TimerVisitHasRoom(monitor: Monitor, log: EventLog, at: Moment, room: nat)
    requires MonitorInv(monitor, log.nextEventId) && LogInv(log) && LogHasRoom(log, 1)
    requires HasRoom(monitor, room + 2) && ClockHasRoom(at.nowMs)
    ensures WellVisited(VisitTimer(monitor, log, at), room)
  {
    var more, most := room + 1, room + 2;
    ObserveHasRoom(monitor, QuietElapsed, true, at.nowMs, log.nextEventId, more, most);
    ObserveKeeps(monitor, QuietElapsed, true, at.nowMs, log.nextEventId);
    TimerHasRoom(monitor, at.nowMs, log.nextEventId, more);
    TimerKeeps(monitor, at.nowMs, log.nextEventId);
    var step := if monitor.QuietDue(at.nowMs) then monitor.Observe(QuietElapsed, true, at.nowMs)
        else monitor.TimerDecision(at.nowMs);
    var (after, decision) := step.value;
    ApplyHasRoom(after, log, decision, at, room, more);
  }

  // All of them.

  lemma RoomForRest(monitors: seq<Monitor>, room: nat)
    requires monitors != [] && AllHaveRoom(monitors, room)
    ensures HasRoom(monitors[0], room) && AllHaveRoom(monitors[1..], room)
  {
    assert monitors[0] in monitors;
    assert forall monitor | monitor in monitors[1..] :: monitor in monitors;
  }

  lemma LessRoom(monitors: seq<Monitor>, room: nat, less: nat)
    requires AllHaveRoom(monitors, room) && less <= room
    ensures AllHaveRoom(monitors, less)
  {
    assert forall monitor | monitor in monitors :: HasRoom(monitor, room);
  }

  lemma RoomAdds(first: Option<Monitor>, rest: seq<Monitor>, room: nat)
    requires AllHaveRoom(rest, room) && (first.Some? ==> HasRoom(first.value, room))
    ensures AllHaveRoom((if first.Some? then [first.value] else []) + rest, room)
  {
  }

  lemma {:induction false} SweepHasRoom(phase: Phase, monitors: seq<Monitor>, log: EventLog,
          observation: TerminalObservation, at: Moment, room: nat)
    requires MonitorsInv(monitors, log.nextEventId) && LogInv(log) && LogHasRoom(log, |monitors|)
    requires AllHaveRoom(monitors, room + 2) && ClockHasRoom(at.nowMs)
    ensures var swept := Sweep(phase, monitors, log, observation, at);
            && swept.Ok? && AllHaveRoom(swept.value.monitors, room) && |swept.value.monitors| <= |monitors|
            && swept.value.log.nextEventId <= log.nextEventId + |monitors|
    decreases |monitors|
  {
    if monitors != [] {
      RoomForRest(monitors, room + 2);
      MonitorsInvTail(monitors, log.nextEventId, log.nextEventId);
      match phase {
        case OutputPhase => OutputVisitHasRoom(monitors[0], log, observation, at, room);
        case TimerPhase => TimerVisitHasRoom(monitors[0], log, at, room);
      }
      VisitKeeps(phase, monitors[0], log, observation, at);
      var visited := Visit(phase, monitors[0], log, observation, at).value;
      MonitorsInvTail(monitors, log.nextEventId, visited.log.nextEventId);
      SweepHasRoom(phase, monitors[1..], visited.log, observation, at, room);
      RoomAdds(visited.survivor, Sweep(phase, monitors[1..], visited.log, observation, at).value.monitors, room);
    }
  }

  lemma {:induction false} DegradingHasRoom(monitors: seq<Monitor>, room: nat, more: nat)
    requires AllHaveRoom(monitors, more) && more == room + 1
    ensures DegradeAll(monitors).Ok? && AllHaveRoom(DegradeAll(monitors).value.0, room)
            && |DegradeAll(monitors).value.0| == |monitors|
    decreases |monitors|
  {
    if monitors != [] {
      RoomForRest(monitors, more);
      DegradingHasRoom(monitors[1..], room, more);
      RoomAdds(Some(monitors[0].DegradeForRawGap().value.0), DegradeAll(monitors[1..]).value.0, room);
    }
  }

  lemma PollHasRoom(monitors: seq<Monitor>, log: EventLog, pollMatched: bool, at: Moment, room: nat)
    requires MonitorsInv(monitors, log.nextEventId) && LogInv(log) && LogHasRoom(log, 1)
    requires AllHaveRoom(monitors, room + 2) && ClockHasRoom(at.nowMs)
    ensures var polled := PollOne(monitors, log, pollMatched, at);
            && polled.Ok? && AllHaveRoom(polled.value.monitors, room) && |polled.value.monitors| <= |monitors|
            && polled.value.log.nextEventId <= log.nextEventId + 1
  {
    var more, most := room + 1, room + 2;
    PollingIndexInRange(monitors, at.nowMs);
    LessRoom(monitors, most, room);
    match FirstPollingDue(monitors, at.nowMs)
    case None =>
    case Some(index) =>
      var monitor := monitors[index];
      assert monitor in monitors;
      ObserveHasRoom(monitor, CheckRun, pollMatched, at.nowMs, log.nextEventId, more, most);
      ObserveThenApply(monitor, CheckRun, pollMatched, log, at);
      var (after, decision) := monitor.Observe(CheckRun, pollMatched, at.nowMs).value;
      ApplyHasRoom(after, log, decision, at, room, more);
      var visited := ApplyDecision(after, log, decision, at).value;
      ReplaceKeeps(monitors, index, visited.survivor, log.nextEventId, visited.log.nextEventId);
  }

  lemma EndOneHasRoom(monitor: Monitor, log: EventLog, exitCode: Option<int>, signal: Option<Signal>, at: Moment)
    requires MonitorInv(monitor, log.nextEventId) && LogInv(log) && LogHasRoom(log, 1)
    requires HasRoom(monitor, 3) && ClockHasRoom(at.nowMs)
    ensures EndOne(monitor, log, exitCode, signal, at).Ok?
  {
    var matches := ExitMatches(monitor.definition.condition, at.lifecycle, exitCode, signal);
    ObserveHasRoom(monitor, ExitSeen, matches, at.nowMs, log.nextEventId, 2, 3);
    ObserveKeeps(monitor, ExitSeen, matches, at.nowMs, log.nextEventId);
    EndDecisionKeeps(monitor, exitCode, signal, at, log.nextEventId);
    var exited := if monitor.definition.condition.IsExitCondition() && at.lifecycle == Exited
                  then monitor.Observe(ExitSeen, matches, at.nowMs).value.0 else monitor;
    ObserveHasRoom(exited, SessionExitSeen, false, at.nowMs, log.nextEventId, 1, 2);
    var (last, decision) := EndDecision(monitor, exitCode, signal, at).value;
    ApplyHasRoom(last, log, decision.(remove := true), at, 0, 1);
  }

  lemma {:induction false} EndAllHasRoom(monitors: seq<Monitor>, log: EventLog, exitCode: Option<int>,
          signal: Option<Signal>, at: Moment)
    requires MonitorsInv(monitors, log.nextEventId) && LogInv(log) && LogHasRoom(log, |monitors|)
    requires AllHaveRoom(monitors, 3) && ClockHasRoom(at.nowMs)
    ensures EndAll(monitors, log, exitCode, signal, at).Ok?
    decreases |monitors|
  {
    if monitors != [] {
      RoomForRest(monitors, 3);
      assert monitors[0] in monitors;
      EndOneHasRoom(monitors[0], log, exitCode, signal, at);
      EndOneKeeps(monitors[0], log, exitCode, signal, at);
      var next := EndOne(monitors[0], log, exitCode, signal, at).value;
      MonitorsInvTail(monitors, log.nextEventId, next.nextEventId);
      EndAllHasRoom(monitors[1..], next, exitCode, signal, at);
    }
  }

  // Evaluations.

  /** Ten more of everything for each monitor, and three events for each and one for a poll. */
  predicate SetHasRoom(candidate: MonitorSet, nowMs: I64) {
    AllHaveRoom(candidate.monitors, 10) && LogHasRoom(candidate.log, 3 * MAXIMUM_MONITORS + 1) && ClockHasRoom(nowMs)
  }

  lemma ScansHaveRoom(candidate: MonitorSet, observation: TerminalObservation, at: Moment)
    requires SetInv(candidate) && SetHasRoom(candidate, at.nowMs)
    ensures var timed := AfterScans(candidate, observation, at);
            && timed.Ok? && SetInv(timed.value.candidate) && AllHaveRoom(timed.value.candidate.monitors, 5)
            && LogHasRoom(timed.value.candidate.log, MAXIMUM_MONITORS + 1)
  {
    AfterGapKeeps(candidate, observation);
    DegradingHasRoom(candidate.monitors, 9, 10);
    LessRoom(candidate.monitors, 10, 9);
    var gapped := AfterGap(candidate, observation).value;
    var seen := Evaluated(gapped.candidate.(lastOutputAtMs := at.nowMs), true);
    AfterSweepKeeps(OutputPhase, seen, observation, at);
    SweepHasRoom(OutputPhase, gapped.candidate.monitors, gapped.candidate.log, observation, at, 7);
    LessRoom(gapped.candidate.monitors, 9, 7);
    var read := AfterOutput(gapped, observation, at).value;
    var advanced := read.(candidate := read.candidate.(cursorOffset := observation.cursorEnd));
    AfterSweepKeeps(TimerPhase, advanced, observation, at);
    SweepHasRoom(TimerPhase, advanced.candidate.monitors, advanced.candidate.log, observation, at, 5);
  }

  lemma EvaluateAcceptedHasRoom(candidate: MonitorSet, observation: TerminalObservation, pollMatched: bool, nowMs: I64)
    requires SetInv(candidate) && SetHasRoom(candidate, nowMs)
    ensures EvaluateAccepted(candidate, observation, pollMatched, nowMs).Ok?
  {
    var at := MomentOf(observation, nowMs);
    ScansHaveRoom(candidate, observation, at);
    var timed := AfterScans(candidate, observation, at).value;
    PollHasRoom(timed.candidate.monitors, timed.candidate.log, pollMatched, at, 3);
    LessRoom(timed.candidate.monitors, 5, 3);
    AfterPollKeeps(timed, pollMatched, at);
    var polled := AfterPoll(timed, pollMatched, at).value;
    EndAllHasRoom(polled.candidate.monitors, polled.candidate.log, observation.exitCode, observation.signal, at);
  }

  /** With room left an observation that is due is evaluated, and what comes of it is saved. */
  lemma EvaluationSucceeds(saved: Option<MonitorSet>, sessionId: Bytes, observation: TerminalObservation,
          pollMatched: bool, nowMs: I64)
    requires SavedInv(saved, sessionId) && IsAccepted(saved, observation) && SetHasRoom(saved.value, nowMs)
    ensures EvaluateAccepted(saved.value, observation, pollMatched, nowMs).Ok?
    ensures var after := EvaluateAccepted(saved.value, observation, pollMatched, nowMs).value.candidate;
            var result := Evaluate(saved, sessionId, observation, pollMatched, nowMs);
            && after.cursorOffset == observation.cursorEnd
            && (result == Ok(Some(after))
                || (result == Ok(None) && observation.output == [] && NothingHappened(saved.value, after, nowMs)))
  {
    LoadSucceeds(saved, sessionId);
    EvaluateAcceptedHasRoom(saved.value, observation, pollMatched, nowMs);
    EvaluateAcceptedKeeps(saved.value, observation, pollMatched, nowMs);
    SetInvIsValid(EvaluateAccepted(saved.value, observation, pollMatched, nowMs).value.candidate);
    EvaluationIsSaved(saved, sessionId, observation, pollMatched, nowMs);
  }

  /** With room left a session that ends leaves no monitor, and that is saved. */
  lemma EndingSucceeds(saved: Option<MonitorSet>, sessionId: Bytes, lifecycle: Lifecycle, nowMs: I64)
    requires SavedInv(saved, sessionId) && saved.Some? && saved.value.monitors != [] && SetHasRoom(saved.value, nowMs)
    ensures var result := EndSession(saved, sessionId, lifecycle, nowMs);
            && result.Ok? && result.value.Some?
            && result.value.value.monitors == [] && result.value.value.lastLifecycle == lifecycle
  {
    var candidate, at := saved.value, Moment(lifecycle, saved.value.cursorOffset, nowMs);
    LoadSucceeds(saved, sessionId);
    LessRoom(candidate.monitors, 10, 3);
    EndAllHasRoom(candidate.monitors, candidate.log, None, None, at);
    EndAllKeeps(candidate.monitors, candidate.log, None, None, at);
    var ended := candidate.(monitors := [], log := EndAll(candidate.monitors, candidate.log, None, None, at).value,
        lastLifecycle := lifecycle);
    StageFromSweep(candidate, ended);
    SetInvIsValid(ended);
  }

  /** Too early: with nobody to hear, or at another place of the stream and without a loss, nothing is done. */
  lemma OutOfPlaceIsIgnored(saved: Option<MonitorSet>, sessionId: Bytes, observation: TerminalObservation,
          pollMatched: bool, nowMs: I64)
    requires SavedInv(saved, sessionId) && observation.cursorStart <= observation.cursorEnd
    requires !IsAccepted(saved, observation)
    ensures Evaluate(saved, sessionId, observation, pollMatched, nowMs) == Ok(None)
  {
    LoadSucceeds(saved, sessionId);
  }
}
