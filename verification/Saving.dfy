// That an evaluation is saved: everything that happens in it is, and what is not saved is next to nothing.

module Saving {
  import opened Basics
  import opened Monitors
  import opened MonitorSets
  import opened SetInvariants
  import opened StoreTheorems

  /** The observation continues the saved set, or comes after a loss, and there is somebody to hear it. */
  predicate IsAccepted(saved: Option<MonitorSet>, observation: TerminalObservation) {
    && saved.Some? && saved.value.monitors != []
    && (observation.rawGap || observation.cursorStart == saved.value.cursorOffset)
    && observation.cursorStart <= observation.cursorEnd
  }

  // What is left unsaved.

  /** One more look at a quiet period that is over, of which there is nothing to say, and a later one. */
  predicate QuietlyChecked(before: Monitor, after: Monitor, nowMs: I64) {
    && before.QuietDue(nowMs)
    && after == before.(runtime := before.runtime.(checkCount := after.runtime.checkCount,
                                                   nextCheckMs := after.runtime.nextCheckMs))
    && after.runtime.checkCount == before.runtime.checkCount + 1
    && after.runtime.nextCheckMs == Some(nowMs + before.definition.condition.durationMs)
  }

  predicate AsGoodAs(before: Monitor, after: Monitor, nowMs: I64) {
    after == before || QuietlyChecked(before, after, nowMs)
  }

  predicate AllAsGood(before: seq<Monitor>, after: seq<Monitor>, nowMs: I64) {
    |before| == |after| && forall i: nat | i < |before| :: AsGoodAs(before[i], after[i], nowMs)
  }

  /** Nothing happened but quiet checks. */
  predicate NothingHappened(before: MonitorSet, after: MonitorSet, nowMs: I64) {
    && after == before.(cursorOffset := after.cursorOffset, monitors := after.monitors)
    && AllAsGood(before.monitors, after.monitors, nowMs)
  }

  lemma SilentTimer(monitor: Monitor, log: EventLog, at: Moment)
    requires VisitTimer(monitor, log, at).Ok? && !VisitTimer(monitor, log, at).value.changed
    ensures var visited := VisitTimer(monitor, log, at).value;
            visited.log == log && visited.survivor.Some? && AsGoodAs(monitor, visited.survivor.value, at.nowMs)
  {
  }

  lemma {:induction false} SilentSweep(monitors: seq<Monitor>, log: EventLog,
          observation: TerminalObservation, at: Moment)
    requires Sweep(TimerPhase, monitors, log, observation, at).Ok?
    requires !Sweep(TimerPhase, monitors, log, observation, at).value.changed
    ensures var swept := Sweep(TimerPhase, monitors, log, observation, at).value;
            swept.log == log && AllAsGood(monitors, swept.monitors, at.nowMs)
    decreases |monitors|
  {
    if monitors != [] {
      SilentTimer(monitors[0], log, at);
      SilentSweep(monitors[1..], log, observation, at);
      var first, rest := VisitTimer(monitors[0], log, at).value.survivor.value,
          Sweep(TimerPhase, monitors[1..], log, observation, at).value.monitors;
      GoodCons(monitors[0], first, monitors[1..], rest, at.nowMs);
      assert [monitors[0]] + monitors[1..] == monitors;
    }
  }

  lemma GoodCons(before: Monitor, after: Monitor, restBefore: seq<Monitor>, restAfter: seq<Monitor>, nowMs: I64)
    requires AsGoodAs(before, after, nowMs) && AllAsGood(restBefore, restAfter, nowMs)
    ensures AllAsGood([before] + restBefore, [after] + restAfter, nowMs)
  {
  }

  lemma {:induction false} NobodyDegrades(monitors: seq<Monitor>)
    requires DegradeAll(monitors).Ok? && !DegradeAll(monitors).value.1
    ensures DegradeAll(monitors).value.0 == monitors
    decreases |monitors|
  {
    if monitors != [] {
      NobodyDegrades(monitors[1..]);
      assert [monitors[0]] + monitors[1..] == monitors;
    }
  }

  lemma UnchangedStages(candidate: MonitorSet, observation: TerminalObservation, pollMatched: bool, nowMs: I64)
    requires EvaluateAccepted(candidate, observation, pollMatched, nowMs).Ok?
    requires !EvaluateAccepted(candidate, observation, pollMatched, nowMs).value.changed
    ensures observation.output == [] && observation.lifecycle == candidate.lastLifecycle
    ensures NothingHappened(candidate,
            EvaluateAccepted(candidate, observation, pollMatched, nowMs).value.candidate, nowMs)
  {
    var at := MomentOf(observation, nowMs);
    var gapped := AfterGap(candidate, observation).value;
    if observation.rawGap {
      NobodyDegrades(candidate.monitors);
    }
    assert gapped.candidate == candidate;
    SilentSweep(candidate.monitors, candidate.log, observation, at);
  }

  // What is saved.

  lemma CursorIsMoved(candidate: MonitorSet, observation: TerminalObservation, pollMatched: bool, nowMs: I64)
    requires EvaluateAccepted(candidate, observation, pollMatched, nowMs).Ok?
    ensures EvaluateAccepted(candidate, observation, pollMatched, nowMs).value.candidate.cursorOffset
            == observation.cursorEnd
  {
  }

  /**
   * An evaluation that does not fail has its whole outcome saved: always when there was output, and otherwise unless
   * nothing happened, in which case what is there already is as good.
   */
  lemma EvaluationIsSaved(saved: Option<MonitorSet>, sessionId: Bytes, observation: TerminalObservation,
          pollMatched: bool, nowMs: I64)
    requires SavedInv(saved, sessionId) && nowMs >= 0 && IsAccepted(saved, observation)
    requires Evaluate(saved, sessionId, observation, pollMatched, nowMs).Ok?
    ensures EvaluateAccepted(saved.value, observation, pollMatched, nowMs).Ok?
    ensures var after := EvaluateAccepted(saved.value, observation, pollMatched, nowMs).value.candidate;
            var written := Evaluate(saved, sessionId, observation, pollMatched, nowMs).value;
            && after.cursorOffset == observation.cursorEnd
            && (written == Some(after)
                || (written == None && observation.output == [] && NothingHappened(saved.value, after, nowMs)))
  {
    LoadSucceeds(saved, sessionId);
    CursorIsMoved(saved.value, observation, pollMatched, nowMs);
    if !EvaluateAccepted(saved.value, observation, pollMatched, nowMs).value.changed {
      UnchangedStages(saved.value, observation, pollMatched, nowMs);
    }
  }
}
