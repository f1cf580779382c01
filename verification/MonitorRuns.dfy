// What any sequence of method calls on one installed monitor can and cannot do.

module MonitorRuns {
  import opened Basics
  import opened Schedule
  import opened Monitors
  import BitWords

  datatype Call =
    | Observe(observation: Observation, conditionMatches: bool, nowMs: I64)
    | Timer(nowMs: I64)
    | NoteOutput(nowMs: I64)
    | Pause
    | Resume(nowMs: I64)
    | Degrade
    | Notify(eventId: U64, reason: EventReason)
    | Feed(bytes: Bytes)

  function Quietly<T>(step: Step<T>): Step<Decision> {
    match step
    case Err(error) => Err(error)
    case Ok((after, _)) => Ok((after, NO_DECISION))
  }

  function Silently(step: Result<Monitor, MonitorError>): Step<Decision> {
    match step
    case Err(error) => Err(error)
    case Ok(after) => Ok((after, NO_DECISION))
  }

  function Apply(monitor: Monitor, call: Call): Step<Decision> {
    match call
    case Observe(observation, conditionMatches, nowMs) => monitor.Observe(observation, conditionMatches, nowMs)
    case Timer(nowMs) => monitor.TimerDecision(nowMs)
    case NoteOutput(nowMs) => Silently(monitor.NoteOutput(nowMs))
    case Pause => Ok((monitor.Pause().0, NO_DECISION))
    case Resume(nowMs) => Quietly(monitor.Resume(nowMs))
    case Degrade => Quietly(monitor.DegradeForRawGap())
    case Notify(eventId, reason) => Silently(monitor.NoteNotification(eventId, reason))
    case Feed(bytes) => Quietly(monitor.FeedOutput(bytes))
  }

  /** The monitor after the calls, with every decision they issued; an error ends the run. */
  function Run(monitor: Monitor, calls: seq<Call>): Step<seq<Decision>>
    decreases |calls|
  {
    if calls == [] then Ok((monitor, []))
    else match Apply(monitor, calls[0])
      case Err(error) => Err(error)
      case Ok((next, decision)) =>
        match Run(next, calls[1..])
        case Err(error) => Err(error)
        case Ok((last, decisions)) => Ok((last, [decision] + decisions))
  }

  function Count(decisions: seq<Decision>, reason: EventReason): nat {
    if decisions == [] then 0
    else (if decisions[0].notify == Some(reason) then 1 else 0) + Count(decisions[1..], reason)
  }

  /** One call reports the match exactly when it is the one that makes the condition true. */
  lemma MatchReportedAtTheEdge(monitor: Monitor, call: Call)
    requires Apply(monitor, call).Ok?
    ensures var (next, decision) := Apply(monitor, call).value;
            && next.definition == monitor.definition
            && (monitor.runtime.conditionMatched ==> next.runtime.conditionMatched)
            && (decision.notify == Some(ConditionMatched) <==>
                monitor.definition.notify == OnMatch && next.runtime.conditionMatched
                    && !monitor.runtime.conditionMatched)
  {
  }

  /** The match is reported exactly when the condition first becomes true, and never again. */
  lemma {:induction false} MatchReportedOnce(monitor: Monitor, calls: seq<Call>)
    requires Run(monitor, calls).Ok?
    ensures var (last, decisions) := Run(monitor, calls).value;
            && last.definition == monitor.definition
            && (monitor.runtime.conditionMatched ==> last.runtime.conditionMatched)
            && Count(decisions, ConditionMatched) ==
               if monitor.definition.notify == OnMatch && last.runtime.conditionMatched
                   && !monitor.runtime.conditionMatched then 1 else 0
    decreases |calls|
  {
    if calls != [] {
      var (next, decision) := Apply(monitor, calls[0]).value;
      MatchReportedAtTheEdge(monitor, calls[0]);
      MatchReportedOnce(next, calls[1..]);
      var (_, decisions) := Run(next, calls[1..]).value;
      assert ([decision] + decisions)[1..] == decisions;
    }
  }

  /** A match survives pausing and resuming. */
  lemma PauseKeepsTheMatch(monitor: Monitor, nowMs: I64)
    requires !monitor.Inert() && monitor.Pause().0.Resume(nowMs).Ok?
    requires monitor.runtime.state == Matched <==> monitor.runtime.conditionMatched
    ensures var (resumed, woken) := monitor.Pause().0.Resume(nowMs).value;
            && woken
            && resumed.runtime.state == monitor.runtime.state
            && resumed.runtime.conditionMatched == monitor.runtime.conditionMatched
            && resumed.runtime.matcherStates == monitor.runtime.matcherStates
  {
    assert monitor.runtime.state == Active || monitor.runtime.state == Matched;
  }

  // Degradation is final.

  predicate DegradedForGood(monitor: Monitor) {
    && monitor.runtime.state == Degraded
    && monitor.runtime.nextCheckMs == None
    && monitor.runtime.nextNotificationMs == None
    && monitor.runtime.matcherStates == BitWords.ZERO_WORDS
  }

  /** What a degraded monitor may still say: nothing, or that its lifetime is over. */
  predicate NothingButExpiry(monitor: Monitor, decision: Decision) {
    decision == NO_DECISION || decision == Decision(monitor.StateNotification(Expired), true, true)
  }

  /** The store never notes output on, or feeds, a degraded monitor. */
  predicate SkipsDegraded(call: Call) {
    !call.NoteOutput? && !call.Feed?
  }

  lemma {:induction false} DegradedIsAbsorbing(monitor: Monitor, calls: seq<Call>)
    requires DegradedForGood(monitor) && Run(monitor, calls).Ok?
    requires forall call | call in calls :: SkipsDegraded(call)
    ensures var (last, decisions) := Run(monitor, calls).value;
            && DegradedForGood(last)
            && last.runtime.conditionMatched == monitor.runtime.conditionMatched
            && last.runtime.generation == monitor.runtime.generation
            && (forall decision | decision in decisions :: NothingButExpiry(monitor, decision))
    decreases |calls|
  {
    if calls != [] {
      assert calls[0] in calls;
      var (next, decision) := Apply(monitor, calls[0]).value;
      assert next.definition == monitor.definition && NothingButExpiry(monitor, decision);
      DegradedIsAbsorbing(next, calls[1..]);
    }
  }

  /**
   * A loss puts a monitor to sleep for good: whatever is called afterwards, it neither matches nor says more than
   * that it expired.
   */
  lemma LossIsFinal(monitor: Monitor, calls: seq<Call>)
    requires monitor.definition.condition.IsGapSensitive() && monitor.runtime.state != Degraded
    requires Run(monitor, [Degrade] + calls).Ok?
    requires forall call | call in calls :: SkipsDegraded(call)
    ensures var (last, decisions) := Run(monitor, [Degrade] + calls).value;
            && DegradedForGood(last)
            && last.runtime.conditionMatched == monitor.runtime.conditionMatched
            && last.runtime.generation == monitor.runtime.generation + 1
            && (forall decision | decision in decisions :: NothingButExpiry(monitor, decision))
  {
    assert ([Degrade] + calls)[1..] == calls;
    var (degraded, _) := Apply(monitor, Degrade).value;
    DegradedIsAbsorbing(degraded, calls);
  }

  // Interval notifications.

  /** The times at which the run announced an interval. */
  function Firings(monitor: Monitor, calls: seq<Call>): seq<int>
    decreases |calls|
  {
    if calls == [] then []
    else match Apply(monitor, calls[0])
      case Err(_) => []
      case Ok((next, decision)) =>
        (if calls[0].Timer? && decision.notify == Some(IntervalElapsed) then [calls[0].nowMs] else [])
            + Firings(next, calls[1..])
  }

  /** The first announcement is due one interval after `base`, as installing and resuming arrange. */
  predicate CountsFrom(monitor: Monitor, base: I64) {
    monitor.definition.notify.Interval? && monitor.runtime.nextNotificationMs
        == Some(base + monitor.definition.notify.intervalMs)
  }

  predicate NoEarlierThan(monitor: Monitor, base: int, fired: nat) {
    && monitor.definition.notify.Interval?
    && (monitor.runtime.nextNotificationMs.Some? ==>
          Tick(base, monitor.definition.notify.intervalMs, fired + 1) <= monitor.runtime.nextNotificationMs.value)
  }

  lemma {:induction false} FiringsStayBehindTheClock(monitor: Monitor, calls: seq<Call>, base: int, fired: nat)
    requires NoEarlierThan(monitor, base, fired)
    requires forall call | call in calls :: !call.Resume?
    ensures forall j: nat | j < |Firings(monitor, calls)| ::
              Tick(base, monitor.definition.notify.intervalMs, fired + j + 1) <= Firings(monitor, calls)[j]
    decreases |calls|
  {
    if calls != [] && Apply(monitor, calls[0]).Ok? {
      assert calls[0] in calls;
      var (next, decision) := Apply(monitor, calls[0]).value;
      assert next.definition == monitor.definition;
      if calls[0].Timer? && decision.notify == Some(IntervalElapsed) {
        var due := monitor.runtime.nextNotificationMs.value;
        AdvanceSkipsAnInterval(due, monitor.definition.notify.intervalMs, calls[0].nowMs);
        FiringsStayBehindTheClock(next, calls[1..], base, fired + 1);
        var rest := Firings(next, calls[1..]);
        var all := [calls[0].nowMs as int] + rest;
        forall j: nat | j < |all|
          ensures Tick(base, monitor.definition.notify.intervalMs, fired + j + 1) <= all[j]
        {
          assert j > 0 ==> Tick(base, monitor.definition.notify.intervalMs, fired + 1 + (j - 1) + 1) <= rest[j - 1];
        }
      } else {
        FiringsStayBehindTheClock(next, calls[1..], base, fired);
      }
    }
  }

  /** Up to its last announcement a monitor has fired at most once per whole interval elapsed. */
  lemma {:induction false} FiringsNeverOutrunTime(monitor: Monitor, calls: seq<Call>, base: I64)
    requires CountsFrom(monitor, base)
    requires forall call | call in calls :: !call.Resume?
    ensures var times := Firings(monitor, calls);
            times != [] ==> base + |times| * monitor.definition.notify.intervalMs <= times[|times| - 1]
  {
    FiringsStayBehindTheClock(monitor, calls, base, 0);
  }

  /** Since it was installed, an interval monitor has fired at most once per whole interval elapsed. */
  lemma InstalledFiresOnTime(monitorId: Bytes, definition: Definition, installedMs: I64, calls: seq<Call>)
    requires definition.notify.Interval? && NewMonitor(monitorId, definition, installedMs).Ok?
    requires forall call | call in calls :: !call.Resume?
    ensures var times := Firings(NewMonitor(monitorId, definition, installedMs).value, calls);
            times != [] ==> installedMs + |times| * definition.notify.intervalMs <= times[|times| - 1]
  {
    FiringsNeverOutrunTime(NewMonitor(monitorId, definition, installedMs).value, calls, installedMs);
  }

  /** And so it is since it was resumed. */
  lemma ResumedFiresOnTime(monitor: Monitor, resumedMs: I64, calls: seq<Call>)
    requires monitor.definition.notify.Interval? && monitor.Resume(resumedMs).Ok? && monitor.Resume(resumedMs).value.1
    requires forall call | call in calls :: !call.Resume?
    ensures var times := Firings(monitor.Resume(resumedMs).value.0, calls);
            times != [] ==> resumedMs + |times| * monitor.definition.notify.intervalMs <= times[|times| - 1]
  {
    FiringsNeverOutrunTime(monitor.Resume(resumedMs).value.0, calls, resumedMs);
  }

  /** A monitor that is awake announces its interval exactly when it is due, whatever was missed, and then once. */
  lemma FiresExactlyWhenDue(monitor: Monitor, nowMs: I64)
    requires monitor.Listens(nowMs) && monitor.definition.notify.Interval? && monitor.TimerDecision(nowMs).Ok?
    ensures monitor.runtime.nextNotificationMs.Some?
    ensures var (after, decision) := monitor.TimerDecision(nowMs).value;
            if nowMs >= monitor.runtime.nextNotificationMs.value
            then decision == Decision(Some(IntervalElapsed), false, false) && after.runtime.nextNotificationMs.Some?
                 && nowMs < after.runtime.nextNotificationMs.value
            else decision == NO_DECISION && after == monitor
  {
    if nowMs >= monitor.runtime.nextNotificationMs.value {
      AdvanceSkipsAnInterval(monitor.runtime.nextNotificationMs.value, monitor.definition.notify.intervalMs, nowMs);
    }
  }

  /** Nothing is due again at the moment of an announcement. */
  lemma NothingDueAfterFiring(monitor: Monitor, nowMs: I64)
    requires monitor.TimerDecision(nowMs).Ok? && monitor.TimerDecision(nowMs).value.1.notify == Some(IntervalElapsed)
    ensures monitor.TimerDecision(nowMs).value.0.TimerDecision(nowMs)
            == Ok((monitor.TimerDecision(nowMs).value.0, NO_DECISION))
  {
    AdvanceSkipsAnInterval(monitor.runtime.nextNotificationMs.value, monitor.definition.notify.intervalMs, nowMs);
  }
}
