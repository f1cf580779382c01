// How one evaluation moves the matching state of every output monitor.

module Detection {
  import opened Basics
  import opened Glob
  import opened Schedule
  import opened Monitors
  import opened MonitorSets
  import opened SetInvariants
  import opened StoreTheorems
  import M = Matcher
  import BitWords
  import MatcherCorrect

  /** The pattern is found: some output was read, and it contains a match. */
  ghost predicate Found(condition: Condition, text: Bytes)
    requires condition.ReadsOutput()
  {
    text != [] && Occurs(condition.pattern, condition.OutputMatches?, text)
  }

  /**
   * The matching state of an output monitor is right for the bytes it was fed. Once matched, its
   * automaton no longer matters; a degraded one has been cleared.
   */
  ghost predicate RightFor(monitor: Monitor, text: Bytes) {
    var condition := monitor.definition.condition;
    condition.ReadsOutput() ==>
      && M.ValidPattern(condition.pattern)
      && (monitor.runtime.conditionMatched <==> Found(condition, text))
      && (!monitor.runtime.conditionMatched && monitor.runtime.state != Degraded ==>
            MatcherCorrect.FedSoFar(condition.pattern, condition.OutputMatches?, monitor.runtime.matcherStates, text))
  }

  predicate SameMatching(before: Monitor, after: Monitor) {
    && SameMonitor(before, after)
    && after.runtime.conditionMatched == before.runtime.conditionMatched
    && after.runtime.matcherStates == before.runtime.matcherStates
    && after.runtime.state == before.runtime.state
  }

  /** The monitor was fed the output, and remembers a match if that or an earlier feed found one. */
  predicate FedOnce(before: Monitor, after: Monitor, output: Bytes) {
    before.FeedOutput(output).Ok? &&
    var (fed, matched) := before.FeedOutput(output).value;
    && SameMonitor(before, after)
    && after.runtime.matcherStates == fed.runtime.matcherStates
    && after.runtime.conditionMatched == (before.runtime.conditionMatched || matched)
    && !after.Inert()
  }

  /** What a visit does to the matching state of a monitor that reads output. */
  predicate Moved(phase: Phase, before: Monitor, after: Monitor, output: Bytes) {
    && SameMonitor(before, after)
    && (before.definition.condition.ReadsOutput() ==>
          if phase == TimerPhase || before.Inert() then SameMatching(before, after) else FedOnce(before, after, output))
  }

  lemma VisitMoves(phase: Phase, monitor: Monitor, log: EventLog, observation: TerminalObservation, at: Moment)
    requires MonitorInv(monitor, log.nextEventId) && LogInv(log) && at.nowMs >= 0
    requires Visit(phase, monitor, log, observation, at).Ok?
    ensures var survivor := Visit(phase, monitor, log, observation, at).value.survivor;
            survivor.Some? ==> Moved(phase, monitor, survivor.value, observation.output)
  {
    VisitKeeps(phase, monitor, log, observation, at);
    if monitor.definition.condition.ReadsOutput() {
      if phase == TimerPhase {
        var (after, decision) := monitor.TimerDecision(at.nowMs).value;
        ApplyLeavesMatching(after, log, decision, at);
      } else if !monitor.Inert() {
        FeedVisitMoves(monitor, log, observation, at);
      }
    }
  }

  lemma FeedVisitMoves(monitor: Monitor, log: EventLog, observation: TerminalObservation, at: Moment)
    requires MonitorInv(monitor, log.nextEventId) && at.nowMs >= 0
    requires monitor.definition.condition.ReadsOutput() && !monitor.Inert()
    requires VisitOutput(monitor, log, observation, at).Ok?
    ensures var survivor := VisitOutput(monitor, log, observation, at).value.survivor;
            survivor.Some? ==> FedOnce(monitor, survivor.value, observation.output)
  {
    FeedKeeps(monitor, observation.output, log.nextEventId);
    var (fed, matched) := monitor.FeedOutput(observation.output).value;
    var (after, decision) := fed.Observe(OutputSeen, matched, at.nowMs).value;
    ApplyLeavesMatching(after, log, decision, at);
  }

  lemma ApplyLeavesMatching(monitor: Monitor, log: EventLog, decision: Decision, at: Moment)
    ensures var applied := ApplyDecision(monitor, log, decision, at);
            applied.Ok? && applied.value.survivor.Some? ==> SameMatching(monitor, applied.value.survivor.value)
  {
  }

  ghost predicate FromBefore(phase: Phase, monitors: seq<Monitor>, survivor: Monitor, output: Bytes) {
    exists origin :: origin in monitors && Moved(phase, origin, survivor, output)
  }

  /** Every survivor of a sweep was there before it and moved as one visit moves it. */
  lemma {:induction false} SweepMoves(phase: Phase, monitors: seq<Monitor>, log: EventLog,
          observation: TerminalObservation, at: Moment)
    requires MonitorsInv(monitors, log.nextEventId) && LogInv(log) && at.nowMs >= 0
    requires Sweep(phase, monitors, log, observation, at).Ok?
    ensures forall survivor | survivor in Sweep(phase, monitors, log, observation, at).value.monitors ::
              FromBefore(phase, monitors, survivor, observation.output)
  {
    if monitors != [] {
      assert monitors[0] in monitors;
      VisitKeeps(phase, monitors[0], log, observation, at);
      VisitMoves(phase, monitors[0], log, observation, at);
      var visited := Visit(phase, monitors[0], log, observation, at).value;
      MonitorsInvTail(monitors, log.nextEventId, visited.log.nextEventId);
      SweepMoves(phase, monitors[1..], visited.log, observation, at);
      var swept := Sweep(phase, monitors, log, observation, at).value.monitors;
      forall survivor | survivor in swept
        ensures FromBefore(phase, monitors, survivor, observation.output)
      {
        if visited.survivor == Some(survivor) {
          assert Moved(phase, monitors[0], survivor, observation.output);
        } else {
          var origin :| origin in monitors[1..] && Moved(phase, origin, survivor, observation.output);
          assert origin in monitors;
        }
      }
    }
  }

  /** Polling never touches a monitor that reads output. */
  lemma PollMoves(monitors: seq<Monitor>, log: EventLog, pollMatched: bool, at: Moment, output: Bytes)
    requires MonitorsInv(monitors, log.nextEventId) && LogInv(log) && at.nowMs >= 0
    requires PollOne(monitors, log, pollMatched, at).Ok?
    ensures forall survivor | survivor in PollOne(monitors, log, pollMatched, at).value.monitors ::
              FromBefore(TimerPhase, monitors, survivor, output)
  {
    forall origin | origin in monitors
      ensures FromBefore(TimerPhase, monitors, origin, output)
    {
      assert Moved(TimerPhase, origin, origin, output);
    }
    PollingIndexInRange(monitors, at.nowMs);
    if FirstPollingDue(monitors, at.nowMs).Some? {
      var index := FirstPollingDue(monitors, at.nowMs).value;
      var polled := monitors[index];
      assert polled in monitors;
      ObserveThenApply(polled, CheckRun, pollMatched, log, at);
      var (after, decision) := polled.Observe(CheckRun, pollMatched, at.nowMs).value;
      var visited := ApplyDecision(after, log, decision, at).value;
      ReplaceKeeps(monitors, index, visited.survivor, log.nextEventId, visited.log.nextEventId);
      if visited.survivor.Some? {
        assert Moved(TimerPhase, polled, visited.survivor.value, output);
      }
    }
  }

  /** A lost region degrades every monitor that reads output, keeping only what it had found. */
  predicate GapMoved(before: Monitor, after: Monitor) {
    && SameMonitor(before, after)
    && after.runtime.conditionMatched == before.runtime.conditionMatched
    && (before.definition.condition.ReadsOutput() ==> after.runtime.state == Degraded)
  }

  /** The whole evaluation, for a monitor still present after it. */
  predicate EvaluationMoved(before: Monitor, after: Monitor, observation: TerminalObservation) {
    && SameMonitor(before, after)
    && (before.definition.condition.ReadsOutput() ==>
          if observation.rawGap then GapMoved(before, after)
          else if before.Inert() || observation.output == [] then SameMatching(before, after)
          else FedOnce(before, after, observation.output))
  }

  ghost predicate FromBeforeEvaluation(monitors: seq<Monitor>, survivor: Monitor, observation: TerminalObservation) {
    exists origin :: origin in monitors && EvaluationMoved(origin, survivor, observation)
  }

  ghost predicate FromBeforeGap(monitors: seq<Monitor>, middle: Monitor, rawGap: bool) {
    exists origin :: origin in monitors && if rawGap then GapMoved(origin, middle) else origin == middle
  }

  lemma GapStageMoves(candidate: MonitorSet, observation: TerminalObservation)
    requires SetInv(candidate) && AfterGap(candidate, observation).Ok?
    ensures forall middle | middle in AfterGap(candidate, observation).value.candidate.monitors ::
              FromBeforeGap(candidate.monitors, middle, observation.rawGap)
  {
    if observation.rawGap {
      DegradeAllKeeps(candidate.monitors, candidate.log.nextEventId);
      var degraded := AfterGap(candidate, observation).value.candidate.monitors;
      forall middle | middle in degraded
        ensures FromBeforeGap(candidate.monitors, middle, true)
      {
        var i: nat :| i < |degraded| && degraded[i] == middle;
        assert candidate.monitors[i] in candidate.monitors;
        DegradedIsMoved(candidate.monitors[i], middle);
      }
    }
  }

  lemma DegradedIsMoved(before: Monitor, after: Monitor)
    requires Ok(after) == Degradation(before)
    ensures GapMoved(before, after)
  {
  }

  lemma GapThenOutput(monitors: seq<Monitor>, middle: Monitor, survivor: Monitor, observation: TerminalObservation)
    requires FromBeforeGap(monitors, middle, observation.rawGap)
    requires if observation.output == [] then survivor == middle
             else Moved(OutputPhase, middle, survivor, observation.output)
    ensures FromBeforeEvaluation(monitors, survivor, observation)
  {
    var origin :| origin in monitors && if observation.rawGap then GapMoved(origin, middle) else origin == middle;
    assert EvaluationMoved(origin, survivor, observation);
  }

  /** After the first scan. */
  lemma OutputStageMoves(candidate: MonitorSet, observation: TerminalObservation, at: Moment)
    requires SetInv(candidate) && at.nowMs >= 0
    requires AfterGap(candidate, observation).Ok?
    requires AfterOutput(AfterGap(candidate, observation).value, observation, at).Ok?
    ensures forall survivor | survivor in AfterOutput(AfterGap(candidate, observation).value, observation,
            at).value.candidate.monitors ::
              FromBeforeEvaluation(candidate.monitors, survivor, observation)
  {
    AfterGapKeeps(candidate, observation);
    GapStageMoves(candidate, observation);
    var gapped := AfterGap(candidate, observation).value;
    if observation.output != [] {
      SweepMoves(OutputPhase, gapped.candidate.monitors, gapped.candidate.log, observation, at);
    }
    forall survivor | survivor in AfterOutput(gapped, observation, at).value.candidate.monitors
      ensures FromBeforeEvaluation(candidate.monitors, survivor, observation)
    {
      var middle := survivor;
      if observation.output != [] {
        middle :| middle in gapped.candidate.monitors && Moved(OutputPhase, middle, survivor, observation.output);
      }
      GapThenOutput(candidate.monitors, middle, survivor, observation);
    }
  }

  /** A later stage that leaves matching alone does not disturb what the first scan did. */
  lemma MovesCompose(monitors: seq<Monitor>, middles: seq<Monitor>, survivors: seq<Monitor>,
          observation: TerminalObservation)
    requires forall middle | middle in middles :: FromBeforeEvaluation(monitors, middle, observation)
    requires forall survivor | survivor in survivors :: FromBefore(TimerPhase, middles, survivor, observation.output)
    ensures forall survivor | survivor in survivors :: FromBeforeEvaluation(monitors, survivor, observation)
  {
    forall survivor | survivor in survivors
      ensures FromBeforeEvaluation(monitors, survivor, observation)
    {
      var middle :| middle in middles && Moved(TimerPhase, middle, survivor, observation.output);
      var origin :| origin in monitors && EvaluationMoved(origin, middle, observation);
      assert EvaluationMoved(origin, survivor, observation);
    }
  }

  lemma ScansMove(candidate: MonitorSet, observation: TerminalObservation, at: Moment)
    requires SetInv(candidate) && at.nowMs >= 0 && AfterScans(candidate, observation, at).Ok?
    ensures var after := AfterScans(candidate, observation, at).value.candidate;
            SetInv(after) && forall survivor | survivor in after.monitors ::
                FromBeforeEvaluation(candidate.monitors, survivor, observation)
  {
    AfterGapKeeps(candidate, observation);
    var gapped := AfterGap(candidate, observation).value;
    AfterSweepKeeps(OutputPhase, Evaluated(gapped.candidate.(lastOutputAtMs := at.nowMs), true), observation, at);
    OutputStageMoves(candidate, observation, at);
    var read := AfterOutput(gapped, observation, at).value;
    var advanced := read.(candidate := read.candidate.(cursorOffset := observation.cursorEnd));
    AfterSweepKeeps(TimerPhase, advanced, observation, at);
    SweepMoves(TimerPhase, advanced.candidate.monitors, advanced.candidate.log, observation, at);
    MovesCompose(candidate.monitors, read.candidate.monitors,
        AfterSweep(TimerPhase, advanced, observation, at).value.candidate.monitors, observation);
  }

  lemma EvaluationMoves(candidate: MonitorSet, observation: TerminalObservation, pollMatched: bool, nowMs: I64)
    requires SetInv(candidate) && nowMs >= 0
    requires EvaluateAccepted(candidate, observation, pollMatched, nowMs).Ok?
    ensures forall survivor | survivor in EvaluateAccepted(candidate, observation, pollMatched,
            nowMs).value.candidate.monitors ::
              FromBeforeEvaluation(candidate.monitors, survivor, observation)
  {
    var at := MomentOf(observation, nowMs);
    ScansMove(candidate, observation, at);
    var timed := AfterScans(candidate, observation, at).value;
    if at.lifecycle == Running {
      PollMoves(timed.candidate.monitors, timed.candidate.log, pollMatched, at, observation.output);
      MovesCompose(candidate.monitors, timed.candidate.monitors,
          AfterPoll(timed, pollMatched, at).value.candidate.monitors, observation);
    }
  }

  // Right matching states stay right.

  lemma FeedingKeepsRight(before: Monitor, after: Monitor, text: Bytes, output: Bytes)
    requires RightFor(before, text) && before.definition.condition.ReadsOutput() && !before.Inert() && output != []
    requires FedOnce(before, after, output)
    ensures RightFor(after, text + output)
  {
    var condition := before.definition.condition;
    var pattern, wildcard := condition.pattern, condition.OutputMatches?;
    if before.runtime.conditionMatched {
      MatcherCorrect.OccurrencePersists(pattern, wildcard, text, output);
    } else {
      MatcherCorrect.FeedFinds(pattern, wildcard, before.runtime.matcherStates, text, output);
    }
  }

  lemma EvaluationKeepsRight(before: Monitor, after: Monitor, text: Bytes, observation: TerminalObservation)
    requires RightFor(before, text) && EvaluationMoved(before, after, observation)
    ensures RightFor(after, if observation.rawGap || before.Inert() then text else text + observation.output)
  {
    if before.definition.condition.ReadsOutput() && !observation.rawGap && !before.Inert() {
      if observation.output != [] {
        FeedingKeepsRight(before, after, text, observation.output);
      } else {
        assert text + observation.output == text;
      }
    }
  }

  lemma FreshIsRight(monitor: Monitor, nextEventId: int)
    requires MonitorInv(monitor, nextEventId)
    requires !monitor.runtime.conditionMatched && monitor.runtime.matcherStates == BitWords.ZERO_WORDS
    ensures RightFor(monitor, [])
  {
  }
}
