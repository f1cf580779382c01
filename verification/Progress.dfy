// What a round of the monitor worker achieves: the saved cursor catches up with the stream.

module Progress {
  import opened Basics
  import opened Monitors
  import opened MonitorSets
  import opened SetInvariants
  import opened StoreTheorems
  import opened Detection
  import opened Host
  import opened Saving
  import Glob
  import R = RingBuffer

  /** Somebody is there to hear. */
  predicate Attended(session: Session) {
    session.saved.Some? && session.saved.value.monitors != []
  }

  /** A verdict that does not stop the worker leaves the saved cursor at the end of what was seen. */
  lemma JudgeCatchesUp(session: Session, pollMatched: bool, nowMs: I64)
    requires SessionInv(session) && Attended(session) && nowMs >= 0
    requires session.worker.Saw? && session.worker.observation.Some?
    ensures var next := JudgeStep(session, pollMatched, nowMs);
            next.worker.Idle? ==>
              next.saved.Some? && next.saved.value.cursorOffset == session.worker.observation.value.cursorEnd
  {
    var observation := session.worker.observation.value;
    LoadSucceeds(session.saved, session.sessionId);
    if Evaluate(session.saved, session.sessionId, observation, pollMatched, nowMs).Ok? {
      EvaluationIsSaved(session.saved, session.sessionId, observation, pollMatched, nowMs);
    }
  }

  /** The worker's three steps, one after another. */
  function Round(session: Session, screenText: Option<Bytes>, pollMatched: bool, nowMs: I64): Session
    requires session.worker.Idle? && nowMs >= 0
  {
    var requested := RequestStep(session);
    if !requested.worker.Requested? then requested
    else
      var seen := GlanceStep(requested, screenText);
      if !seen.worker.Saw? then seen else JudgeStep(seen, pollMatched, nowMs)
  }

  /** A round in an open session that does not stop the worker leaves nothing of the stream unread. */
  lemma RoundCatchesUp(session: Session, screenText: Option<Bytes>, pollMatched: bool, nowMs: I64)
    requires SessionInv(session) && Attended(session) && session.open && session.worker.Idle? && nowMs >= 0
    ensures var next := Round(session, screenText, pollMatched, nowMs);
            && SessionInv(next)
            && (next.worker.Idle? ==> next.saved.Some? && next.saved.value.cursorOffset == |session.stream|)
            && next.stream == session.stream
  {
    LoadSucceeds(session.saved, session.sessionId);
    RequestKeeps(session);
    var requested := RequestStep(session);
    GlanceKeeps(requested, screenText);
    SeenIsInFlight(requested, requested.worker.cursor, if requested.worker.includeScreen then screenText else None);
    R.GlimpseShowsStream(requested.ring, requested.stream, requested.worker.cursor);
    var seen := GlanceStep(requested, screenText);
    JudgeKeeps(seen, pollMatched, nowMs);
    JudgeCatchesUp(seen, pollMatched, nowMs);
  }

  /**
   * So after a round a present output monitor, never paused while it could hear, has matched exactly when its pattern
   * occurs in the whole stream since its installation, or up to its first loss.
   */
  lemma {:induction false} RoundDetects(sessionId: Bytes, steps: seq<Host.Step>, last: Session,
          screenText: Option<Bytes>,
          pollMatched: bool, nowMs: I64, monitor: Monitor)
    requires ValidSessionId(sessionId) && IsRun(Begin(sessionId), steps, last)
    requires Attended(last) && last.open && last.worker.Idle? && nowMs >= 0
    requires var next := Round(last, screenText, pollMatched, nowMs);
             next.worker.Idle? && next.saved.Some? && monitor in next.saved.value.monitors
    requires monitor.definition.condition.ReadsOutput()
    ensures var next := Round(last, screenText, pollMatched, nowMs);
            && monitor.monitorId in next.feeds
            && var feed, condition := next.feeds[monitor.monitorId], monitor.definition.condition;
               var heard := HeardUpTo(feed, |last.stream|);
               && feed.from <= heard <= |last.stream|
               && (!feed.everPaused ==>
                     (monitor.runtime.conditionMatched <==>
                      feed.from < heard
                      && Glob.Occurs(condition.pattern, condition.OutputMatches?, last.stream[feed.from..heard])))
  {
    RunKeeps(Begin(sessionId), steps, last);
    RoundCatchesUp(last, screenText, pollMatched, nowMs);
    var next := Round(last, screenText, pollMatched, nowMs);
    assert Tracked(monitor, next.feeds, next.saved.value.cursorOffset, next.stream);
  }
}
