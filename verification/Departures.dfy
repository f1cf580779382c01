// What every monitor finds in an evaluation, and that exactly the right monitors leave it.

module Departures {
  import opened Basics
  import opened Schedule
  import opened Monitors
  import opened MonitorSets
  import opened SetInvariants
  import opened StoreTheorems
  import opened Announcements
  import opened Balance
  import StoreRuns

  /** The monitor whose condition is due to be checked, and whose lifetime is not over. */
  predicate ToCheck(monitor: Monitor, nowMs: I64) {
    monitor.PollingDue(nowMs) && !monitor.ExpiredAt(nowMs)
  }

  /** The one monitor an evaluation checks. */
  function FirstToCheck(monitors: seq<Monitor>, nowMs: I64): Option<Bytes> {
    if monitors == [] then None
    else if ToCheck(monitors[0], nowMs) then Some(monitors[0].monitorId)
    else FirstToCheck(monitors[1..], nowMs)
  }

  /**
   * The monitor's condition comes true in this evaluation: it was waiting, and the new output completes its
   * pattern, the screen shows it, the quiet period is over, the check succeeds, or the session ends its way.
   * Output after a loss is no evidence.
   */
  predicate Finds(candidate: MonitorSet, monitor: Monitor, observation: TerminalObservation,
          pollMatched: bool, nowMs: I64) {
    && Awaits(monitor, nowMs)
    && match monitor.definition.condition
       case OutputContains(_) | OutputMatches(_) =>
         && !observation.rawGap && observation.output != []
         && monitor.FeedOutput(observation.output).Ok? && monitor.FeedOutput(observation.output).value.1
       case ScreenMatches(pattern) =>
         !observation.rawGap && observation.output != [] && ScreenMatched(pattern, observation.screenText)
       case OutputQuiet(_) =>
         !observation.rawGap && observation.output == [] && monitor.QuietDue(nowMs)
       case ProcessExit | ExitCode(_) | SignalIs(_) =>
         && SeesTheEnd(candidate, observation.lifecycle)
         && ExitMatches(monitor.definition.condition, observation.lifecycle, observation.exitCode, observation.signal)
       case _ =>
         observation.lifecycle == Running && pollMatched
             && FirstToCheck(candidate.monitors, nowMs) == Some(monitor.monitorId)
  }

  // Which monitor is checked does not depend on the scans before it.

  lemma VisitKeepsCheck(phase: Phase, monitor: Monitor, log: EventLog, observation: TerminalObservation, at: Moment)
    requires Visit(phase, monitor, log, observation, at).Ok?
    ensures var survivor := Visit(phase, monitor, log, observation, at).value.survivor;
            && (survivor.Some? ==> survivor.value.monitorId == monitor.monitorId
                                   && (ToCheck(survivor.value, at.nowMs) <==> ToCheck(monitor, at.nowMs)))
            && (survivor.None? ==> !ToCheck(monitor, at.nowMs))
  {
    match phase {
      case OutputPhase => OutputVisitKeepsCheck(monitor, log, observation, at);
      case TimerPhase => TimerVisitKeepsCheck(monitor, log, at);
    }
  }

  lemma OutputVisitKeepsCheck(monitor: Monitor, log: EventLog, observation: TerminalObservation, at: Moment)
    requires VisitOutput(monitor, log, observation, at).Ok?
    ensures var survivor := VisitOutput(monitor, log, observation, at).value.survivor;
            if monitor.definition.condition.RequiresPolling() then survivor == Some(monitor)
            else survivor.Some? ==> SameMonitor(monitor, survivor.value)
  {
    match monitor.definition.condition {
      case OutputContains(_) | OutputMatches(_) =>
        if !monitor.Inert() {
          var (fed, matched) := monitor.FeedOutput(observation.output).value;
          ObservedIsSame(fed, OutputSeen, matched, log, at);
        }
      case ScreenMatches(pattern) =>
        if !monitor.Inert() {
          ObservedIsSame(monitor, ScreenSeen, ScreenMatched(pattern, observation.screenText), log, at);
        }
      case _ =>
    }
  }

  lemma ObservedIsSame(monitor: Monitor, observation: Observation, matched: bool, log: EventLog, at: Moment)
    requires monitor.Observe(observation, matched, at.nowMs).Ok?
    requires var (after, decision) := monitor.Observe(observation, matched, at.nowMs).value;
             ApplyDecision(after, log, decision, at).Ok?
    ensures var (after, decision) := monitor.Observe(observation, matched, at.nowMs).value;
            var survivor := ApplyDecision(after, log, decision, at).value.survivor;
            survivor.Some? ==> SameMonitor(monitor, survivor.value)
  {
    var (after, decision) := monitor.Observe(observation, matched, at.nowMs).value;
    assert SameMonitor(monitor, after);
    AppliedIsSame(after, log, decision, at);
  }

  lemma AppliedIsSame(monitor: Monitor, log: EventLog, decision: Decision, at: Moment)
    requires ApplyDecision(monitor, log, decision, at).Ok?
    ensures var survivor := ApplyDecision(monitor, log, decision, at).value.survivor;
            survivor.Some? ==> SameMonitor(monitor, survivor.value)
  {
  }

  lemma TimerVisitKeepsCheck(monitor: Monitor, log: EventLog, at: Moment)
    requires VisitTimer(monitor, log, at).Ok?
    ensures var survivor := VisitTimer(monitor, log, at).value.survivor;
            && (survivor.Some? ==> survivor.value.monitorId == monitor.monitorId
                                   && (ToCheck(survivor.value, at.nowMs) <==> ToCheck(monitor, at.nowMs)))
            && (survivor.None? ==> !ToCheck(monitor, at.nowMs))
  {
  }

  lemma {:induction false} SweepKeepsCheck(phase: Phase, monitors: seq<Monitor>, log: EventLog,
          observation: TerminalObservation, at: Moment)
    requires Sweep(phase, monitors, log, observation, at).Ok?
    ensures FirstToCheck(Sweep(phase, monitors, log, observation, at).value.monitors, at.nowMs)
            == FirstToCheck(monitors, at.nowMs)
    decreases |monitors|
  {
    if monitors != [] {
      VisitKeepsCheck(phase, monitors[0], log, observation, at);
      var visited := Visit(phase, monitors[0], log, observation, at).value;
      SweepKeepsCheck(phase, monitors[1..], visited.log, observation, at);
      var rest := Sweep(phase, monitors[1..], visited.log, observation, at).value.monitors;
      assert visited.survivor.Some? ==> (Optional(visited.survivor) + rest)[1..] == rest;
      assert visited.survivor.None? ==> Optional(visited.survivor) + rest == rest;
    }
  }

  lemma {:induction false} DegradingKeepsCheck(monitors: seq<Monitor>, nowMs: I64)
    requires DegradeAll(monitors).Ok?
    ensures FirstToCheck(DegradeAll(monitors).value.0, nowMs) == FirstToCheck(monitors, nowMs)
    decreases |monitors|
  {
    if monitors != [] {
      DegradingKeepsCheck(monitors[1..], nowMs);
      var first, rest := monitors[0].DegradeForRawGap().value.0, DegradeAll(monitors[1..]).value.0;
      assert ToCheck(first, nowMs) <==> ToCheck(monitors[0], nowMs);
      assert ([first] + rest)[1..] == rest;
    }
  }

  lemma {:induction false} FirstDueIsFirstToCheck(monitors: seq<Monitor>, nowMs: I64)
    requires StoreRuns.NoneExpired(monitors, nowMs)
    ensures match FirstPollingDue(monitors, nowMs)
            case None => FirstToCheck(monitors, nowMs) == None
            case Some(index) => index < |monitors| && FirstToCheck(monitors, nowMs) == Some(monitors[index].monitorId)
    decreases |monitors|
  {
    if monitors != [] {
      assert monitors[0] in monitors;
      FirstDueIsFirstToCheck(monitors[1..], nowMs);
    }
  }

  lemma ScansKeepCheck(candidate: MonitorSet, observation: TerminalObservation, at: Moment)
    requires AfterScans(candidate, observation, at).Ok?
    ensures FirstToCheck(AfterScans(candidate, observation, at).value.candidate.monitors, at.nowMs)
            == FirstToCheck(candidate.monitors, at.nowMs)
  {
    var gapped := AfterGap(candidate, observation).value;
    if observation.rawGap {
      DegradingKeepsCheck(candidate.monitors, at.nowMs);
    }
    var read := AfterOutput(gapped, observation, at).value;
    if observation.output != [] {
      SweepKeepsCheck(OutputPhase, gapped.candidate.monitors, gapped.candidate.log, observation, at);
    }
    SweepKeepsCheck(TimerPhase, read.candidate.monitors, read.candidate.log, observation, at);
  }

  // What the scans find.

  /** After output, and after a loss, no quiet period can be over. */
  predicate Stirred(monitor: Monitor, nowMs: I64) {
    monitor.definition.condition.OutputQuiet? ==> monitor.Inert() || !monitor.QuietDue(nowMs)
  }

  lemma OutputStirs(monitor: Monitor, log: EventLog, observation: TerminalObservation, at: Moment)
    requires MonitorInv(monitor, log.nextEventId) && VisitOutput(monitor, log, observation, at).Ok?
    ensures var survivor := VisitOutput(monitor, log, observation, at).value.survivor;
            survivor.Some? ==> Stirred(survivor.value, at.nowMs)
  {
    if !monitor.definition.condition.OutputQuiet? {
      OutputVisitKeepsCheck(monitor, log, observation, at);
    }
  }

  lemma {:induction false} SweepStirs(monitors: seq<Monitor>, log: EventLog,
          observation: TerminalObservation, at: Moment)
    requires MonitorsInv(monitors, log.nextEventId) && LogInv(log) && at.nowMs >= 0
    requires Sweep(OutputPhase, monitors, log, observation, at).Ok?
    ensures forall survivor | survivor in Sweep(OutputPhase, monitors, log, observation, at).value.monitors ::
            Stirred(survivor, at.nowMs)
    decreases |monitors|
  {
    if monitors != [] {
      assert monitors[0] in monitors;
      VisitKeeps(OutputPhase, monitors[0], log, observation, at);
      OutputStirs(monitors[0], log, observation, at);
      var visited := Visit(OutputPhase, monitors[0], log, observation, at).value;
      MonitorsInvTail(monitors, log.nextEventId, visited.log.nextEventId);
      SweepStirs(monitors[1..], visited.log, observation, at);
    }
  }

  /** A loss leaves nobody awake who reads output, watches the screen or waits for quiet. */
  lemma GapDeafens(candidate: MonitorSet, observation: TerminalObservation)
    requires SetInv(candidate) && observation.rawGap && AfterGap(candidate, observation).Ok?
    ensures forall monitor | monitor in AfterGap(candidate, observation).value.candidate.monitors ::
              monitor.definition.condition.IsGapSensitive() ==> monitor.Inert()
  {
    DegradeAllKeeps(candidate.monitors, candidate.log.nextEventId);
    var degraded := AfterGap(candidate, observation).value.candidate.monitors;
    forall monitor | monitor in degraded ensures monitor.definition.condition.IsGapSensitive() ==> monitor.Inert() {
      var i: nat :| i < |degraded| && degraded[i] == monitor;
      assert Ok(degraded[i]) == Degradation(candidate.monitors[i]);
    }
  }

  lemma OutputFinds(candidate: MonitorSet, observation: TerminalObservation, pollMatched: bool, at: Moment,
          monitor: Monitor)
    requires SetInv(candidate) && AfterGap(candidate, observation).Ok? && monitor in candidate.monitors
    requires at == MomentOf(observation, at.nowMs)
    ensures var gapped := AfterGap(candidate, observation).value.candidate;
            monitor.monitorId in FoundByOutput(gapped.monitors, observation, at) <==>
              && !monitor.definition.condition.OutputQuiet? && monitor.definition.condition.IsGapSensitive()
              && Finds(candidate, monitor, observation, pollMatched, at.nowMs)
  {
    var gapped := AfterGap(candidate, observation).value.candidate;
    if observation.rawGap {
      GapDeafens(candidate, observation);
      assert forall other :: other in gapped.monitors ==> !VisitFinds(OutputPhase, other, observation, at);
    } else if observation.output != [] {
      forall other | other in gapped.monitors && other.monitorId == monitor.monitorId ensures other == monitor {
        OnlyOneHasTheId(candidate.monitors, other, monitor);
      }
    }
  }

  lemma QuietFinds(candidate: MonitorSet, observation: TerminalObservation, pollMatched: bool, at: Moment,
          monitor: Monitor)
    requires SetInv(candidate) && at.nowMs >= 0 && AfterScans(candidate, observation, at).Ok?
             && monitor in candidate.monitors
    requires at == MomentOf(observation, at.nowMs)
    ensures var read := AfterOutput(AfterGap(candidate, observation).value, observation, at).value.candidate;
            monitor.monitorId in FoundBy(TimerPhase, read.monitors, observation, at) <==>
              monitor.definition.condition.OutputQuiet? && Finds(candidate, monitor, observation, pollMatched, at.nowMs)
  {
    var gapped := AfterGap(candidate, observation).value.candidate;
    var read := AfterOutput(AfterGap(candidate, observation).value, observation, at).value.candidate;
    if observation.output != [] {
      AfterGapKeeps(candidate, observation);
      SweepStirs(gapped.monitors, gapped.log, observation, at);
      assert forall other :: other in read.monitors ==> !VisitFinds(TimerPhase, other, observation, at);
    } else if observation.rawGap {
      GapDeafens(candidate, observation);
      assert forall other :: other in read.monitors ==> !VisitFinds(TimerPhase, other, observation, at);
    } else {
      forall other | other in read.monitors && other.monitorId == monitor.monitorId ensures other == monitor {
        OnlyOneHasTheId(candidate.monitors, other, monitor);
      }
    }
  }

  lemma ScansFind(candidate: MonitorSet, observation: TerminalObservation, pollMatched: bool, at: Moment,
          monitor: Monitor)
    requires SetInv(candidate) && at.nowMs >= 0 && AfterScans(candidate, observation, at).Ok?
             && monitor in candidate.monitors
    requires at == MomentOf(observation, at.nowMs)
    ensures monitor.monitorId in FoundByScans(candidate, observation, at) <==>
              monitor.definition.condition.IsGapSensitive()
                  && Finds(candidate, monitor, observation, pollMatched, at.nowMs)
  {
    OutputFinds(candidate, observation, pollMatched, at, monitor);
    QuietFinds(candidate, observation, pollMatched, at, monitor);
  }

  // What the check finds.

  lemma PollFinds(candidate: MonitorSet, observation: TerminalObservation, pollMatched: bool, at: Moment,
          monitor: Monitor)
    requires SetInv(candidate) && at.nowMs >= 0 && AfterScans(candidate, observation, at).Ok?
             && monitor in candidate.monitors
    requires at == MomentOf(observation, at.nowMs)
    ensures var timed := AfterScans(candidate, observation, at).value.candidate;
            monitor.monitorId in FoundByPolling(timed.monitors, pollMatched, at) <==>
              monitor.definition.condition.RequiresPolling()
                  && Finds(candidate, monitor, observation, pollMatched, at.nowMs)
  {
    var timed := AfterScans(candidate, observation, at).value.candidate;
    StoreRuns.ScansRemoveExpired(candidate, observation, at);
    FirstDueIsFirstToCheck(timed.monitors, at.nowMs);
    ScansKeepCheck(candidate, observation, at);
    if FirstToCheck(candidate.monitors, at.nowMs) == Some(monitor.monitorId) {
      CheckedSurvives(candidate, observation, pollMatched, at, monitor);
    }
  }

  /** The monitor to check comes through the scans, and is the first one due then. */
  lemma CheckedSurvives(candidate: MonitorSet, observation: TerminalObservation, pollMatched: bool, at: Moment,
          monitor: Monitor)
    requires SetInv(candidate) && at.nowMs >= 0 && AfterScans(candidate, observation, at).Ok?
             && monitor in candidate.monitors
    requires at == MomentOf(observation, at.nowMs)
    requires FirstToCheck(candidate.monitors, at.nowMs) == Some(monitor.monitorId)
    ensures var timed := AfterScans(candidate, observation, at).value.candidate;
            var index := FirstPollingDue(timed.monitors, at.nowMs);
            && index.Some? && index.value < |timed.monitors|
            && var checked := timed.monitors[index.value];
               && checked.monitorId == monitor.monitorId
               && monitor.definition.condition.RequiresPolling()
               && (Awaits(checked, at.nowMs) <==> Awaits(monitor, at.nowMs))
  {
    var timed := AfterScans(candidate, observation, at).value.candidate;
    StoreRuns.ScansRemoveExpired(candidate, observation, at);
    FirstDueIsFirstToCheck(timed.monitors, at.nowMs);
    ScansKeepCheck(candidate, observation, at);
    PollingIndexInRange(timed.monitors, at.nowMs);
    var checked := timed.monitors[FirstPollingDue(timed.monitors, at.nowMs).value];
    assert checked in timed.monitors;
    var _ := ScansBalance(candidate, observation, at);
    var survivor := SurvivorOf(candidate.monitors, timed.monitors, FoundByScans(candidate, observation, at), monitor);
    OnlyOneHasTheId(timed.monitors, survivor, checked);
    ScansFind(candidate, observation, pollMatched, at, monitor);
  }

  // What the end of the session finds.

  lemma EndingFinds(candidate: MonitorSet, observation: TerminalObservation, pollMatched: bool, at: Moment,
          monitor: Monitor)
    requires SetInv(candidate) && at.nowMs >= 0 && AfterScans(candidate, observation, at).Ok?
             && monitor in candidate.monitors
    requires at == MomentOf(observation, at.nowMs)
    requires AfterPoll(AfterScans(candidate, observation, at).value, pollMatched, at).Ok?
    ensures var polled := AfterPoll(AfterScans(candidate, observation, at).value, pollMatched, at).value.candidate;
            monitor.monitorId in FoundByEnding(polled, observation, at) <==>
              monitor.definition.condition.IsExitCondition()
                  && Finds(candidate, monitor, observation, pollMatched, at.nowMs)
  {
    var timed := AfterScans(candidate, observation, at).value;
    var polled := AfterPoll(timed, pollMatched, at).value.candidate;
    var _ := PolledBalances(candidate, observation, pollMatched, at);
    LifecycleIsKept(candidate, observation, pollMatched, at);
    var found := FoundByScans(candidate, observation, at) + FoundByPolling(timed.candidate.monitors, pollMatched, at);
    ScansFind(candidate, observation, pollMatched, at, monitor);
    PollFinds(candidate, observation, pollMatched, at, monitor);
    assert LeftRightly(monitor, polled.monitors, found, at.nowMs);
    if monitor.monitorId in IdSet(polled.monitors) {
      var survivor := SurvivorOf(candidate.monitors, polled.monitors, found, monitor);
      forall other | other in polled.monitors && other.monitorId == monitor.monitorId ensures other == survivor {
        OnlyOneHasTheId(polled.monitors, other, survivor);
      }
    }
  }

  /** In every evaluation exactly the monitors whose condition comes true have found it. */
  lemma FoundMeansFinds(candidate: MonitorSet, observation: TerminalObservation, pollMatched: bool, nowMs: I64,
          monitor: Monitor)
    requires SetInv(candidate) && nowMs >= 0 && monitor in candidate.monitors
    requires EvaluateAccepted(candidate, observation, pollMatched, nowMs).Ok?
    ensures monitor.monitorId in FoundByEvaluation(candidate, observation, pollMatched, nowMs) <==>
              Finds(candidate, monitor, observation, pollMatched, nowMs)
  {
    var at := MomentOf(observation, nowMs);
    ScansFind(candidate, observation, pollMatched, at, monitor);
    PollFinds(candidate, observation, pollMatched, at, monitor);
    EndingFinds(candidate, observation, pollMatched, at, monitor);
  }

  /**
   * When the evaluation itself sees the session stop running, every monitor goes. Otherwise a monitor goes if
   * and only if its lifetime is over, or it was installed until its match and finds it in this evaluation.
   */
  lemma DeparturesAreExact(candidate: MonitorSet, observation: TerminalObservation, pollMatched: bool, nowMs: I64,
          monitor: Monitor)
    requires SetInv(candidate) && nowMs >= 0 && monitor in candidate.monitors
    requires EvaluateAccepted(candidate, observation, pollMatched, nowMs).Ok?
    ensures var after := EvaluateAccepted(candidate, observation, pollMatched, nowMs).value.candidate;
            monitor.monitorId !in IdSet(after.monitors) <==>
              || SeesTheEnd(candidate, observation.lifecycle)
              || monitor.ExpiredAt(nowMs)
              || (monitor.definition.lifetime == UntilMatch
                  && Finds(candidate, monitor, observation, pollMatched, nowMs))
  {
    var after := EvaluateAccepted(candidate, observation, pollMatched, nowMs).value.candidate;
    var found := FoundByEvaluation(candidate, observation, pollMatched, nowMs);
    var _ := EvaluationBalances(candidate, observation, pollMatched, nowMs);
    FoundMeansFinds(candidate, observation, pollMatched, nowMs, monitor);
    if !SeesTheEnd(candidate, observation.lifecycle) {
      assert LeftRightly(monitor, after.monitors, found, nowMs);
      if monitor.monitorId in IdSet(after.monitors) {
        var survivor := SurvivorOf(candidate.monitors, after.monitors, found, monitor);
        StoreRuns.EvaluationRemovesExpired(candidate, observation, pollMatched, nowMs);
      }
    }
  }

  /** Whoever stays is who was there, with the match it found, and nobody comes. */
  lemma SurvivorsAreExact(candidate: MonitorSet, observation: TerminalObservation, pollMatched: bool, nowMs: I64,
          survivor: Monitor)
    returns (origin: Monitor)
    requires SetInv(candidate) && nowMs >= 0 && EvaluateAccepted(candidate, observation, pollMatched, nowMs).Ok?
    requires survivor in EvaluateAccepted(candidate, observation, pollMatched, nowMs).value.candidate.monitors
    ensures origin in candidate.monitors && SameMonitor(origin, survivor)
    ensures survivor.runtime.conditionMatched <==>
              origin.runtime.conditionMatched || Finds(candidate, origin, observation, pollMatched, nowMs)
  {
    var after := EvaluateAccepted(candidate, observation, pollMatched, nowMs).value.candidate;
    var found := FoundByEvaluation(candidate, observation, pollMatched, nowMs);
    var _ := EvaluationBalances(candidate, observation, pollMatched, nowMs);
    assert HasOrigin(candidate.monitors, survivor, found);
    origin :| origin in candidate.monitors && Survives(origin, survivor, origin.monitorId in found);
    FoundMeansFinds(candidate, observation, pollMatched, nowMs, origin);
  }
}
