// Which events the store adds to the log, and that each monitor reports its match at most once.

module Announcements {
  import opened Basics
  import opened Schedule
  import opened Monitors
  import opened MonitorSets
  import opened SetInvariants
  import opened StoreTheorems

  // What a step adds to the log, whatever it evicts.

  function Tail(events: seq<MonitorEvent>, count: nat): seq<MonitorEvent> {
    if count >= |events| then events else events[|events| - count..]
  }

  /** The added events got the next identifiers, and the log keeps the newest 1024 of all. */
  predicate Appends(before: EventLog, after: EventLog, added: seq<MonitorEvent>) {
    && after.nextEventId == before.nextEventId + |added|
    && after.events == Tail(before.events + added, MAXIMUM_EVENTS)
    && forall k: nat | k < |added| :: HasId(added[k], before.nextEventId + k)
  }

  predicate HasId(event: MonitorEvent, id: int) {
    event.eventId == id
  }

  lemma AppendsNothing(log: EventLog)
    requires LogInv(log)
    ensures Appends(log, log, [])
  {
    assert log.events + [] == log.events;
  }

  lemma AppendsCompose(first: EventLog, second: EventLog, third: EventLog, a: seq<MonitorEvent>, b: seq<MonitorEvent>)
    requires Appends(first, second, a) && Appends(second, third, b)
    ensures Appends(first, third, a + b)
  {
    TailOfTail(first.events + a, b);
    assert (first.events + a) + b == first.events + (a + b);
    forall k: nat | k < |a + b| ensures HasId((a + b)[k], first.nextEventId + k) {
      if k >= |a| {
        var j := k - |a|;
        assert HasId(b[j], second.nextEventId + j);
      } else {
        assert HasId(a[k], first.nextEventId + k);
      }
    }
  }

  lemma TailOfTail(events: seq<MonitorEvent>, more: seq<MonitorEvent>)
    ensures Tail(Tail(events, MAXIMUM_EVENTS) + more, MAXIMUM_EVENTS) == Tail(events + more, MAXIMUM_EVENTS)
  {
  }

  lemma EmitAppends(monitor: Monitor, log: EventLog, reason: EventReason, at: Moment)
    requires LogInv(log) && Emit(monitor, log, reason, at).Ok?
    ensures Appends(log, Emit(monitor, log, reason, at).value.1, [EventFor(monitor, log.nextEventId, reason, at)])
  {
    var event := EventFor(monitor, log.nextEventId, reason, at);
    var appended := log.(nextEventId := log.nextEventId + 1, events := log.events + [event]);
    if |appended.events| > MAXIMUM_EVENTS {
      var trimmed :=
          appended.(events := appended.events[1..], gapThrough := Max(appended.gapThrough, appended.events[0].eventId));
      assert Trim(appended) == Trim(trimmed) == trimmed;
    }
    assert HasId(event, log.nextEventId);
  }

  // Reports of a match.

  function IsReport(event: MonitorEvent, id: Bytes): nat {
    if event.monitorId == id && event.reason == ConditionMatched then 1 else 0
  }

  function Reports(events: seq<MonitorEvent>, id: Bytes): nat {
    if events == [] then 0 else IsReport(events[0], id) + Reports(events[1..], id)
  }

  lemma {:induction false} ReportsConcat(a: seq<MonitorEvent>, b: seq<MonitorEvent>, id: Bytes)
    ensures Reports(a + b, id) == Reports(a, id) + Reports(b, id)
  {
    if a == [] {
      assert a + b == b;
    } else {
      assert (a + b)[1..] == a[1..] + b;
      ReportsConcat(a[1..], b, id);
    }
  }

  /** Whether the monitor has a match left to report. */
  function Owes(monitor: Monitor): nat {
    if monitor.definition.notify == OnMatch && !monitor.runtime.conditionMatched then 1 else 0
  }

  function Owed(monitors: seq<Monitor>, id: Bytes): nat {
    if monitors == [] then 0
    else if monitors[0].monitorId == id then Owes(monitors[0])
    else Owed(monitors[1..], id)
  }

  /** The monitor as it went on: only what a found match or the passing of time may change has changed. */
  predicate Survives(before: Monitor, after: Monitor, found: bool) {
    && SameMonitor(before, after)
    && after.runtime.lifetimeDeadlineMs == before.runtime.lifetimeDeadlineMs
    && after.runtime.conditionMatched == (before.runtime.conditionMatched || found)
    && (!before.definition.condition.IsGapSensitive() ==> after.Inert() == before.Inert())
  }

  /** A monitor goes when its lifetime is over, or when it found the match it was installed to wait for. */
  predicate GoesRightly(monitor: Monitor, found: bool, nowMs: I64) {
    monitor.ExpiredAt(nowMs) || (monitor.definition.lifetime == UntilMatch && found)
  }

  /** Only this monitor speaks, once at most, and it reports a match exactly if it found one and was asked to. */
  predicate SpeaksTruly(monitor: Monitor, added: seq<MonitorEvent>, found: bool) {
    && |added| <= 1
    && (forall k: nat | k < |added| :: added[k].monitorId == monitor.monitorId)
    && Reports(added, monitor.monitorId) == (if found then Owes(monitor) else 0)
  }

  /** One decision: what the monitor says, how it goes on, and that it goes if and only if it must. */
  predicate Decided(monitor: Monitor, survivor: Option<Monitor>, added: seq<MonitorEvent>, found: bool, nowMs: I64) {
    && SpeaksTruly(monitor, added, found)
    && (found ==> !monitor.runtime.conditionMatched)
    && (if survivor.None? then GoesRightly(monitor, found, nowMs)
        else Survives(monitor, survivor.value, found) && !(monitor.definition.lifetime == UntilMatch && found))
  }

  /** The monitor is listening and has not matched before. */
  predicate Awaits(monitor: Monitor, nowMs: I64) {
    monitor.Listens(nowMs) && !monitor.runtime.conditionMatched
  }

  /**
   * What one visit makes a waiting monitor find: a match in the output or on the screen, or a quiet period at its
   * end.
   */
  predicate VisitFinds(phase: Phase, monitor: Monitor, observation: TerminalObservation, at: Moment) {
    && Awaits(monitor, at.nowMs)
    && match phase
       case TimerPhase => monitor.QuietDue(at.nowMs)
       case OutputPhase =>
         match monitor.definition.condition
         case OutputContains(_) | OutputMatches(_) =>
           monitor.FeedOutput(observation.output).Ok? && monitor.FeedOutput(observation.output).value.1
         case ScreenMatches(pattern) => ScreenMatched(pattern, observation.screenText)
         case _ => false
  }

  lemma ApplyAppends(monitor: Monitor, log: EventLog, decision: Decision, at: Moment) returns (added: seq<MonitorEvent>)
    requires MonitorInv(monitor, log.nextEventId) && LogInv(log) && at.nowMs >= 0
    requires ApplyDecision(monitor, log, decision, at).Ok?
    ensures Appends(log, ApplyDecision(monitor, log, decision, at).value.log, added)
    ensures |added| <= 1 && forall k: nat | k < |added| :: added[k].monitorId == monitor.monitorId
    ensures Reports(added, monitor.monitorId) == if decision.notify == Some(ConditionMatched) then 1 else 0
    ensures var survivor := ApplyDecision(monitor, log, decision, at).value.survivor;
            if decision.remove then survivor.None? else survivor.Some? && Survives(monitor, survivor.value, false)
                                                        && survivor.value.Inert() == monitor.Inert()
  {
    if decision.notify.Some? {
      EmitAppends(monitor, log, decision.notify.value, at);
      EmitKeeps(monitor, log, decision.notify.value, at);
      added := [EventFor(monitor, log.nextEventId, decision.notify.value, at)];
      assert Reports(added[1..], monitor.monitorId) == 0;
    } else {
      AppendsNothing(log);
      added := [];
    }
  }

  /** An observation's decision reports the match, and asks to go, exactly when the observation makes it. */
  lemma ObserveDecides(monitor: Monitor, observation: Observation, matched: bool, nowMs: I64)
    requires observation != SessionExitSeen && monitor.Observe(observation, matched, nowMs).Ok?
    ensures var (after, decision) := monitor.Observe(observation, matched, nowMs).value;
            var found := Awaits(monitor, nowMs) && matched;
            && ((decision.notify == Some(ConditionMatched)) <==> found && Owes(monitor) == 1)
            && Survives(monitor, after, found)
            && (if decision.remove then GoesRightly(monitor, found, nowMs)
                else !(monitor.definition.lifetime == UntilMatch && found))
  {
  }

  lemma ObserveSpeaks(monitor: Monitor, observation: Observation, matched: bool, log: EventLog, at: Moment)
    returns (added: seq<MonitorEvent>)
    requires MonitorInv(monitor, log.nextEventId) && LogInv(log) && at.nowMs >= 0
    requires observation != SessionExitSeen && monitor.Observe(observation, matched, at.nowMs).Ok?
    requires var (after, decision) := monitor.Observe(observation, matched, at.nowMs).value;
             ApplyDecision(after, log, decision, at).Ok?
    ensures var (after, decision) := monitor.Observe(observation, matched, at.nowMs).value;
            var visited := ApplyDecision(after, log, decision, at).value;
            && Appends(log, visited.log, added)
            && Decided(monitor, visited.survivor, added, Awaits(monitor, at.nowMs) && matched, at.nowMs)
  {
    ObserveKeeps(monitor, observation, matched, at.nowMs, log.nextEventId);
    ObserveDecides(monitor, observation, matched, at.nowMs);
    var (after, decision) := monitor.Observe(observation, matched, at.nowMs).value;
    added := ApplyAppends(after, log, decision, at);
  }

  lemma QuietlyTrue(monitor: Monitor, after: Monitor, log: EventLog, nowMs: I64) returns (added: seq<MonitorEvent>)
    requires LogInv(log) && Survives(monitor, after, false)
    ensures Appends(log, log, added) && Decided(monitor, Some(after), added, false, nowMs)
  {
    AppendsNothing(log);
    added := [];
  }

  lemma VisitOutputSpeaks(monitor: Monitor, log: EventLog, observation: TerminalObservation, at: Moment)
    returns (added: seq<MonitorEvent>)
    requires MonitorInv(monitor, log.nextEventId) && LogInv(log) && at.nowMs >= 0
    requires VisitOutput(monitor, log, observation, at).Ok?
    ensures var visited := VisitOutput(monitor, log, observation, at).value;
            && Appends(log, visited.log, added)
            && Decided(monitor, visited.survivor, added, VisitFinds(OutputPhase, monitor, observation, at), at.nowMs)
  {
    if monitor.Inert() {
      added := QuietlyTrue(monitor, monitor, log, at.nowMs);
    } else {
      match monitor.definition.condition {
        case OutputContains(_) | OutputMatches(_) =>
          added := FeedVisitSpeaks(monitor, log, observation, at);
        case ScreenMatches(pattern) =>
          added := ObserveSpeaks(monitor, ScreenSeen, ScreenMatched(pattern, observation.screenText), log, at);
        case OutputQuiet(_) =>
          added := QuietlyTrue(monitor, monitor.NoteOutput(at.nowMs).value, log, at.nowMs);
        case _ =>
          added := QuietlyTrue(monitor, monitor, log, at.nowMs);
      }
    }
  }

  lemma FeedVisitSpeaks(monitor: Monitor, log: EventLog, observation: TerminalObservation, at: Moment)
    returns (added: seq<MonitorEvent>)
    requires MonitorInv(monitor, log.nextEventId) && LogInv(log) && at.nowMs >= 0
    requires !monitor.Inert() && monitor.definition.condition.ReadsOutput()
             && VisitOutput(monitor, log, observation, at).Ok?
    ensures var visited := VisitOutput(monitor, log, observation, at).value;
            && Appends(log, visited.log, added)
            && Decided(monitor, visited.survivor, added, VisitFinds(OutputPhase, monitor, observation, at), at.nowMs)
  {
    FeedKeeps(monitor, observation.output, log.nextEventId);
    var (fed, matched) := monitor.FeedOutput(observation.output).value;
    assert Survives(monitor, fed, false) && fed.Inert() == monitor.Inert();
    added := ObserveSpeaks(fed, OutputSeen, matched, log, at);
    assert Awaits(fed, at.nowMs) == Awaits(monitor, at.nowMs) && Owes(fed) == Owes(monitor);
  }

  lemma VisitTimerSpeaks(monitor: Monitor, log: EventLog, at: Moment) returns (added: seq<MonitorEvent>)
    requires MonitorInv(monitor, log.nextEventId) && LogInv(log) && at.nowMs >= 0
    requires VisitTimer(monitor, log, at).Ok?
    ensures var visited := VisitTimer(monitor, log, at).value;
            && Appends(log, visited.log, added)
            && Decided(monitor, visited.survivor, added, Awaits(monitor, at.nowMs)
                && monitor.QuietDue(at.nowMs), at.nowMs)
  {
    if monitor.QuietDue(at.nowMs) {
      ObserveDecides(monitor, QuietElapsed, true, at.nowMs);
      var (after, decision) := monitor.Observe(QuietElapsed, true, at.nowMs).value;
      if decision == NO_DECISION {
        added := QuietlyTrue(monitor, after, log, at.nowMs);
      } else {
        added := ObserveSpeaks(monitor, QuietElapsed, true, log, at);
      }
    } else {
      added := TimedVisitSpeaks(monitor, log, at);
    }
  }

  lemma TimedVisitSpeaks(monitor: Monitor, log: EventLog, at: Moment) returns (added: seq<MonitorEvent>)
    requires MonitorInv(monitor, log.nextEventId) && LogInv(log) && at.nowMs >= 0
    requires !monitor.QuietDue(at.nowMs) && VisitTimer(monitor, log, at).Ok?
    ensures var visited := VisitTimer(monitor, log, at).value;
            Appends(log, visited.log, added) && Decided(monitor, visited.survivor, added, false, at.nowMs)
  {
    var (after, decision) := monitor.TimerDecision(at.nowMs).value;
    if decision == NO_DECISION {
      added := QuietlyTrue(monitor, after, log, at.nowMs);
    } else {
      TimerKeeps(monitor, at.nowMs, log.nextEventId);
      added := ApplyAppends(after, log, decision, at);
    }
  }

  /** A visit makes a monitor speak, stay or go exactly as what it finds and its lifetime demand. */
  lemma VisitSpeaks(phase: Phase, monitor: Monitor, log: EventLog, observation: TerminalObservation, at: Moment)
    returns (added: seq<MonitorEvent>)
    requires MonitorInv(monitor, log.nextEventId) && LogInv(log) && at.nowMs >= 0
    requires Visit(phase, monitor, log, observation, at).Ok?
    ensures var visited := Visit(phase, monitor, log, observation, at).value;
            && Appends(log, visited.log, added)
            && Decided(monitor, visited.survivor, added, VisitFinds(phase, monitor, observation, at), at.nowMs)
  {
    match phase {
      case OutputPhase => added := VisitOutputSpeaks(monitor, log, observation, at);
      case TimerPhase => added := VisitTimerSpeaks(monitor, log, at);
    }
  }
}
