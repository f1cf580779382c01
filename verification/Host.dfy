// The terminal host: output, the monitor worker's three separately locked steps, and client operations,
// interleaved in any order. Model of one session; every step holds one lock.

module Host {
  import opened Basics
  import opened Monitors
  import opened MonitorSets
  import opened SetInvariants
  import opened StoreTheorems
  import opened Departures
  import opened Detection
  import Balance
  import R = RingBuffer
  import BitWords
  import Glob

  /** Where the worker is inside one round of `evaluate_monitors` for this session. */
  datatype Worker =
    | Idle
    | Requested(cursor: U64, includeScreen: bool)
    | Saw(observation: Option<TerminalObservation>)
    | Stopped

  /**
   * History of one installed monitor: where it began to read, what it was fed, whether it was paused while it could
   * hear, and where in the stream its first loss began.
   */
  datatype Feed = Feed(from: nat, text: Bytes, everPaused: bool, lost: Option<nat>)

  /** How far a monitor that follows the stream to `cursor` has heard it: a loss ends that for good. */
  function HeardUpTo(feed: Feed, cursor: nat): nat {
    if feed.lost.Some? then feed.lost.value else cursor
  }

  function Deafened(feed: Feed, cursor: nat): Feed {
    if feed.lost.None? then feed.(lost := Some(cursor)) else feed
  }

  datatype Session = Session(
    sessionId: Bytes,
    stream: Bytes,
    ring: R.Ring,
    open: bool,
    lifecycle: Lifecycle,
    exitCode: Option<int>,
    signal: Option<Signal>,
    saved: Option<MonitorSet>,
    worker: Worker,
    feeds: map<Bytes, Feed>)

  datatype Step =
    // The session's reader and waiter threads.
    | Write(bytes: Bytes)
    | Stop(lifecycle: Lifecycle, exitCode: Option<int>, signal: Option<Signal>)
    // The monitor worker.
    | Request
    | Glance(screenText: Option<Bytes>)
    | Judge(pollMatched: bool, nowMs: I64)
    // Client threads. The moment of an operation was sampled before the store was locked.
    | Install(definitions: seq<Definition>, prepared: seq<bool>, atLifecycle: Lifecycle, nowMs: I64)
    | Operate(operation: Operation, preparedOne: bool, at: Moment)
    | Inspect(after: Option<U64>, acknowledge: Option<U64>, maxEvents: nat)
    | Read(segment: U64, offset: U64)
    | Close
    | EndClosed(nowMs: I64)

  predicate Enabled(session: Session, step: Step) {
    match step
    case Write(bytes) => |session.stream| + |bytes| <= MAX_U64
    case Stop(_, _, _) => true
    case Request => session.worker.Idle?
    case Glance(_) => session.worker.Requested?
    case Judge(_, nowMs) => session.worker.Saw? && nowMs >= 0
    case Install(definitions, prepared, _, nowMs) => |prepared| == |definitions| && nowMs >= 0
    case Operate(_, _, at) => at.cursorOffset <= |session.stream| && at.nowMs >= 0
    case Inspect(_, _, _) => true
    case Read(_, _) => true
    case Close => true
    case EndClosed(nowMs) => nowMs >= 0
  }

  function Seen(session: Session, glimpse: R.Glimpse, screenText: Option<Bytes>): TerminalObservation
    requires glimpse.Glimpse?
  {
    TerminalObservation(session.lifecycle, session.exitCode, session.signal,
                        glimpse.cursorStart, glimpse.cursorEnd, glimpse.rawGap, glimpse.output, screenText)
  }

  function MonitorsOf(saved: Option<MonitorSet>): seq<Monitor> {
    if saved.Some? then saved.value.monitors else []
  }

  predicate Listening(monitors: seq<Monitor>, id: Bytes, nowMs: I64) {
    exists monitor :: monitor in monitors && monitor.monitorId == id && monitor.Listens(nowMs)
  }

  /** An evaluation reaches the monitors present; those that listen take in the output, unless some was lost. */
  function FeedAll(feeds: map<Bytes, Feed>, monitors: seq<Monitor>, cursor: nat, observation: TerminalObservation,
          nowMs: I64): map<Bytes, Feed> {
    map id | id in feeds ::
      if id !in IdSet(monitors) then feeds[id]
      else if observation.rawGap then Deafened(feeds[id], cursor)
      else if Listening(monitors, id, nowMs) then feeds[id].(text := feeds[id].text + observation.output)
      else feeds[id]
  }

  /** The feed of one monitor that is present. */
  lemma FeedOfOne(feeds: map<Bytes, Feed>, monitors: seq<Monitor>, cursor: nat, observation: TerminalObservation,
          nowMs: I64, monitor: Monitor)
    requires DistinctIds(monitors) && monitor in monitors && monitor.monitorId in feeds
    ensures var feed, id := feeds[monitor.monitorId], monitor.monitorId;
            && id in FeedAll(feeds, monitors, cursor, observation, nowMs)
            && FeedAll(feeds, monitors, cursor, observation, nowMs)[id] ==
               if observation.rawGap then Deafened(feed, cursor)
               else if monitor.Listens(nowMs) then feed.(text := feed.text + observation.output)
               else feed
  {
    assert monitor.monitorId in IdSet(monitors);
    if Listening(monitors, monitor.monitorId, nowMs) {
      var other :| other in monitors && other.monitorId == monitor.monitorId && other.Listens(nowMs);
      Balance.OnlyOneHasTheId(monitors, other, monitor);
    }
  }

  function FeedInstalled(monitors: seq<Monitor>): map<Bytes, Feed> {
    map id | id in IdSet(monitors) :: Feed(0, [], false, None)
  }

  function FeedOperated(feeds: map<Bytes, Feed>, operation: Operation, id: Bytes, cursor: U64): map<Bytes, Feed> {
    match operation
    case Add(_) | Update(_, _) => feeds[id := Feed(cursor, [], false, None)]
    case Pause(_) => if id in feeds && feeds[id].lost.None? then feeds[id := feeds[id].(everPaused := true)] else feeds
    case Resume(_) | Remove(_) => feeds
  }

  function JudgeStep(session: Session, pollMatched: bool, nowMs: I64): Session
    requires session.worker.Saw?
  {
    match session.worker.observation
    case None =>
      (match EndSession(session.saved, session.sessionId, Lost, nowMs)
       case Err(_) => session.(worker := Stopped)
       case Ok(written) => session.(worker := Idle, saved := Overwrite(session.saved, written)))
    case Some(observation) =>
      match Evaluate(session.saved, session.sessionId, observation, pollMatched, nowMs)
      case Err(_) => session.(worker := Stopped)
      case Ok(None) => session.(worker := Idle)
      case Ok(Some(stored)) =>
        session.(worker := Idle, saved := Some(stored),
                 feeds := FeedAll(session.feeds, MonitorsOf(session.saved), session.saved.value.cursorOffset,
                     observation, nowMs))
  }

  function WriteStep(session: Session, bytes: Bytes): Session {
    session.(stream := session.stream + bytes, ring := R.Append(session.ring, bytes))
  }

  function StopStep(session: Session, lifecycle: Lifecycle, exitCode: Option<int>, signal: Option<Signal>): Session {
    if session.lifecycle != Running then session
    else session.(lifecycle := lifecycle, exitCode := exitCode, signal := signal)
  }

  function RequestStep(session: Session): Session {
    match ObservationRequest(session.saved, session.sessionId)
    case Err(_) => session.(worker := Stopped)
    case Ok(None) => session
    case Ok(Some((cursor, screen))) => session.(worker := Requested(cursor, screen))
  }

  function GlanceStep(session: Session, screenText: Option<Bytes>): Session
    requires session.worker.Requested?
  {
    if !session.open then session.(worker := Saw(None))
    else
      var glimpse := R.Observe(session.ring, session.worker.cursor);
      match glimpse
      case CursorAhead => session.(worker := Stopped)
      case Glimpse(_, _, _, _) =>
        session.(worker := Saw(Some(Seen(session, glimpse, if session.worker.includeScreen then screenText else None))))
  }

  function InstallStep(session: Session, definitions: seq<Definition>, prepared: seq<bool>, lifecycle: Lifecycle,
          nowMs: I64): Session
    requires |prepared| == |definitions|
  {
    match InstallInitial(session.saved, session.sessionId, definitions, prepared, lifecycle, nowMs)
    case Err(_) => session
    case Ok(None) => session
    case Ok(Some(stored)) => session.(saved := Some(stored), feeds := FeedInstalled(stored.monitors))
  }

  function OperateStep(session: Session, operation: Operation, prepared: bool, at: Moment): Session {
    match MonitorSets.Operate(session.saved, session.sessionId, operation, prepared, at)
    case Err(_) => session
    case Ok((stored, id)) =>
      session.(saved := Some(stored), feeds := FeedOperated(session.feeds, operation, id, stored.cursorOffset))
  }

  function InspectStep(session: Session, after: Option<U64>, acknowledge: Option<U64>, maxEvents: nat): Session {
    match MonitorSets.Inspect(session.saved, session.sessionId, after, acknowledge, maxEvents)
    case Err(_) => session
    case Ok((written, _)) => session.(saved := Overwrite(session.saved, written))
  }

  function ReadStep(session: Session, segment: U64, offset: U64): Session {
    if session.open then session.(ring := R.Read(session.ring, segment, offset).1) else session
  }

  function EndStep(session: Session, nowMs: I64): Session {
    match EndSession(session.saved, session.sessionId, Closed, nowMs)
    case Err(_) => session
    case Ok(written) => session.(saved := Overwrite(session.saved, written))
  }

  function Next(session: Session, step: Step): Session
    requires Enabled(session, step)
  {
    match step
    case Write(bytes) => WriteStep(session, bytes)
    case Stop(lifecycle, exitCode, signal) => StopStep(session, lifecycle, exitCode, signal)
    case Request => RequestStep(session)
    case Glance(screenText) => GlanceStep(session, screenText)
    case Judge(pollMatched, nowMs) => JudgeStep(session, pollMatched, nowMs)
    case Install(definitions, prepared, lifecycle, nowMs) =>
        InstallStep(session, definitions, prepared, lifecycle, nowMs)
    case Operate(operation, prepared, at) => OperateStep(session, operation, prepared, at)
    case Inspect(after, acknowledge, maxEvents) => InspectStep(session, after, acknowledge, maxEvents)
    case Read(segment, offset) => ReadStep(session, segment, offset)
    case Close => session.(open := false, lifecycle := Closed)
    case EndClosed(nowMs) => EndStep(session, nowMs)
  }

  function Begin(sessionId: Bytes): Session {
    Session(sessionId, [], R.EMPTY_RING, true, Running, None, None, None, Idle, map[])
  }

  // The invariant of every interleaving.

  /** The history of an output monitor explains its state. */
  ghost predicate Tracked(monitor: Monitor, feeds: map<Bytes, Feed>, cursor: nat, stream: Bytes) {
    monitor.definition.condition.ReadsOutput() ==>
      && monitor.monitorId in feeds
      && var feed := feeds[monitor.monitorId];
         && RightFor(monitor, feed.text)
         && feed.from <= HeardUpTo(feed, cursor) <= cursor <= |stream|
         && (feed.lost.Some? <==> monitor.runtime.state == Degraded)
         && (!feed.everPaused ==> monitor.runtime.state != Paused
                                  && feed.text == stream[feed.from..HeardUpTo(feed, cursor)])
  }

  /** An observation in flight continues the stream from the saved cursor, or reports what was lost. */
  predicate InFlight(observation: TerminalObservation, cursor: int, stream: Bytes) {
    && 0 <= cursor
    && observation.cursorStart <= observation.cursorEnd <= |stream|
    && observation.output == stream[observation.cursorStart..observation.cursorEnd]
    && (if observation.rawGap then cursor < observation.cursorStart
        && observation.output != [] else cursor == observation.cursorStart)
  }

  predicate WorkerInv(session: Session) {
    match session.worker
    case Idle | Stopped => true
    case Requested(cursor, _) => session.saved.Some? && cursor == session.saved.value.cursorOffset
    case Saw(observation) =>
      observation.Some? ==> session.saved.Some?
                            && InFlight(observation.value, session.saved.value.cursorOffset, session.stream)
  }

  ghost predicate MonitorsTracked(session: Session) {
    session.saved.Some? ==>
      && session.saved.value.cursorOffset <= |session.stream|
      && forall monitor | monitor in session.saved.value.monitors ::
           Tracked(monitor, session.feeds, session.saved.value.cursorOffset, session.stream)
  }

  ghost predicate SessionInv(session: Session) {
    && |session.stream| <= MAX_U64
    && R.Shows(session.ring, session.stream)
    && SavedInv(session.saved, session.sessionId)
    && WorkerInv(session)
    && MonitorsTracked(session)
  }

  lemma StillTracked(monitor: Monitor, feeds: map<Bytes, Feed>, cursor: nat, stream: Bytes, bytes: Bytes)
    requires cursor <= |stream| && Tracked(monitor, feeds, cursor, stream)
    ensures Tracked(monitor, feeds, cursor, stream + bytes)
  {
    if monitor.definition.condition.ReadsOutput() {
      var feed := feeds[monitor.monitorId];
      var heard := HeardUpTo(feed, cursor);
      assert (stream + bytes)[feed.from..heard] == stream[feed.from..heard];
    }
  }

  lemma StillInFlight(observation: TerminalObservation, cursor: int, stream: Bytes, bytes: Bytes)
    requires InFlight(observation, cursor, stream)
    ensures InFlight(observation, cursor, stream + bytes)
  {
    assert (stream + bytes)[observation.cursorStart..observation.cursorEnd]
           == stream[observation.cursorStart..observation.cursorEnd];
  }

  lemma WriteKeeps(session: Session, bytes: Bytes)
    requires SessionInv(session) && |session.stream| + |bytes| <= MAX_U64
    ensures SessionInv(WriteStep(session, bytes))
  {
    R.AppendShows(session.ring, session.stream, bytes);
    if session.saved.Some? {
      forall monitor | monitor in session.saved.value.monitors
        ensures Tracked(monitor, session.feeds, session.saved.value.cursorOffset, session.stream + bytes)
      {
        StillTracked(monitor, session.feeds, session.saved.value.cursorOffset, session.stream, bytes);
      }
    }
    if session.worker.Saw? && session.worker.observation.Some? && session.saved.Some? {
      StillInFlight(session.worker.observation.value, session.saved.value.cursorOffset, session.stream, bytes);
    }
  }

  lemma RequestKeeps(session: Session)
    requires SessionInv(session)
    ensures SessionInv(RequestStep(session)) && (!session.worker.Stopped? ==> !RequestStep(session).worker.Stopped?)
  {
    LoadSucceeds(session.saved, session.sessionId);
  }

  /** What the worker sees from the saved cursor continues the stream there. */
  lemma SeenIsInFlight(session: Session, cursor: U64, screenText: Option<Bytes>)
    requires R.Shows(session.ring, session.stream) && |session.stream| <= MAX_U64 && cursor <= |session.stream|
    ensures var glimpse := R.Observe(session.ring, cursor);
            glimpse.Glimpse? && InFlight(Seen(session, glimpse, screenText), cursor, session.stream)
  {
    R.GlimpseShowsStream(session.ring, session.stream, cursor);
  }

  lemma GlanceKeeps(session: Session, screenText: Option<Bytes>)
    requires SessionInv(session) && session.worker.Requested?
    ensures SessionInv(GlanceStep(session, screenText)) && !GlanceStep(session, screenText).worker.Stopped?
  {
    if session.open {
      SeenIsInFlight(session, session.worker.cursor, if session.worker.includeScreen then screenText else None);
    }
  }

  lemma FedMonitorTracked(before: Monitor, after: Monitor, session: Session,
          observation: TerminalObservation, nowMs: I64)
    requires SessionInv(session) && session.saved.Some? && before in session.saved.value.monitors
             && !before.ExpiredAt(nowMs)
    requires InFlight(observation, session.saved.value.cursorOffset, session.stream)
    requires EvaluationMoved(before, after, observation)
    ensures Tracked(after,
            FeedAll(session.feeds, session.saved.value.monitors, session.saved.value.cursorOffset, observation, nowMs),
            observation.cursorEnd, session.stream)
  {
    if before.definition.condition.ReadsOutput() {
      var monitors, cursor := session.saved.value.monitors, session.saved.value.cursorOffset;
      assert Tracked(before, session.feeds, cursor, session.stream);
      var feed := session.feeds[before.monitorId];
      FeedOfOne(session.feeds, monitors, cursor, observation, nowMs, before);
      EvaluationKeepsRight(before, after, feed.text, observation);
      if !observation.rawGap && feed.lost.None? {
        StretchesJoin(session.stream, feed.from, cursor, observation.cursorEnd);
      }
    }
  }

  lemma StretchesJoin(stream: Bytes, from: nat, cursor: nat, end: nat)
    requires from <= cursor <= end <= |stream|
    ensures stream[from..cursor] + stream[cursor..end] == stream[from..end]
  {
  }

  lemma StoredIsTracked(session: Session, observation: TerminalObservation, pollMatched: bool, nowMs: I64)
    requires SessionInv(session) && session.saved.Some? && nowMs >= 0
    requires InFlight(observation, session.saved.value.cursorOffset, session.stream)
    requires EvaluateAccepted(session.saved.value, observation, pollMatched, nowMs).Ok?
    ensures var candidate := session.saved.value;
            var stored := EvaluateAccepted(candidate, observation, pollMatched, nowMs).value.candidate;
            && stored.cursorOffset == observation.cursorEnd
            && forall after | after in stored.monitors ::
                 Tracked(after, FeedAll(session.feeds, candidate.monitors, candidate.cursorOffset, observation, nowMs),
                     observation.cursorEnd,
                     session.stream)
  {
    var candidate := session.saved.value;
    EvaluateAcceptedKeeps(candidate, observation, pollMatched, nowMs);
    EvaluationMoves(candidate, observation, pollMatched, nowMs);
    var stored := EvaluateAccepted(candidate, observation, pollMatched, nowMs).value.candidate;
    forall after | after in stored.monitors
      ensures Tracked(after, FeedAll(session.feeds, candidate.monitors, candidate.cursorOffset, observation, nowMs),
              observation.cursorEnd,
              session.stream)
    {
      var before :| before in candidate.monitors && EvaluationMoved(before, after, observation);
      DeparturesAreExact(candidate, observation, pollMatched, nowMs, before);
      assert after.monitorId in IdSet(stored.monitors);
      FedMonitorTracked(before, after, session, observation, nowMs);
    }
  }

  /** A round of the worker never discards its observation, and what it stores is tracked. */
  lemma JudgeKeeps(session: Session, pollMatched: bool, nowMs: I64)
    requires SessionInv(session) && session.worker.Saw? && nowMs >= 0
    ensures SessionInv(JudgeStep(session, pollMatched, nowMs))
  {
    if session.worker.observation.None? {
      EndSessionKeeps(session.saved, session.sessionId, Lost, nowMs);
    } else {
      var observation := session.worker.observation.value;
      EvaluateKeeps(session.saved, session.sessionId, observation, pollMatched, nowMs);
      LoadSucceeds(session.saved, session.sessionId);
      var written := Evaluate(session.saved, session.sessionId, observation, pollMatched, nowMs);
      if written.Ok? && written.value.Some? {
        StoredIsTracked(session, observation, pollMatched, nowMs);
      }
    }
  }

  // Client operations on monitors.

  /** What an operation does to the matching state of the monitors present after it. */
  ghost predicate OperationMoved(operation: Operation, id: Bytes, before: seq<Monitor>, after: Monitor) {
    if after.monitorId != id || operation.Remove? then after in before
    else if operation.Add? || operation.Update? then
      && after.definition == operation.definition
      && !after.runtime.conditionMatched && after.runtime.matcherStates == BitWords.ZERO_WORDS
          && after.runtime.state == Active
    else exists origin :: origin in before && Woken(operation, origin, after)
  }

  predicate Woken(operation: Operation, origin: Monitor, after: Monitor) {
    && SameMonitor(origin, after)
    && after.runtime.conditionMatched == origin.runtime.conditionMatched
    && after.runtime.matcherStates == origin.runtime.matcherStates
    && (origin.runtime.state == Degraded <==> after.runtime.state == Degraded)
    && (operation.Resume? && origin.runtime.state != Paused ==> after.runtime.state != Paused)
  }

  lemma ReplacedMoves(candidate: MonitorSet, index: nat, changed: Monitor, reason: EventReason, at: Moment,
          after: MonitorSet)
    requires SetInv(candidate) && at.nowMs >= 0 && index < |candidate.monitors|
    requires MonitorInv(changed, candidate.log.nextEventId) && changed.monitorId == candidate.monitors[index].monitorId
    requires ReplaceAndEmit(candidate, index, changed, reason, at) == Ok(after)
    ensures forall monitor | monitor in after.monitors ::
              monitor.monitorId != changed.monitorId ==> monitor in candidate.monitors
    ensures forall monitor | monitor in after.monitors ::
              monitor.monitorId == changed.monitorId ==> SameMatching(changed, monitor)
  {
    EmitKeeps(changed, candidate.log, reason, at);
    var (noted, _) := Emit(changed, candidate.log, reason, at).value;
    forall monitor | monitor in after.monitors
      ensures monitor == noted || (monitor in candidate.monitors && monitor.monitorId != changed.monitorId)
    {
      var i: nat :| i < |after.monitors| && after.monitors[i] == monitor;
      if i != index {
        assert candidate.monitors[i] == monitor;
        assert i < index || index < i;
      }
    }
  }

  lemma ChangeMoves(candidate: MonitorSet, operation: Operation, prepared: bool, at: Moment, after: MonitorSet)
    requires SetInv(candidate) && at.nowMs >= 0 && !operation.Add?
    requires ChangeMonitor(candidate, operation, prepared, at) == Ok(after)
    ensures forall monitor | monitor in after.monitors ::
            OperationMoved(operation, operation.monitorId, candidate.monitors, monitor)
  {
    FoundIndexInRange(candidate.monitors, operation.monitorId);
    var index := FindMonitor(candidate.monitors, operation.monitorId).value;
    var monitor := candidate.monitors[index];
    assert monitor in candidate.monitors;
    match operation {
      case Update(_, definition) => UpdateMoves(candidate, index, definition, prepared, at, after);
      case Pause(_) => PauseMoves(candidate, index, at, after);
      case Resume(_) => ResumeMoves(candidate, index, at, after);
      case Remove(_) =>
        EmitKeeps(monitor, candidate.log, Removed, at);
        ReplaceKeeps(candidate.monitors, index, None, candidate.log.nextEventId, after.log.nextEventId);
    }
  }

  lemma UpdateMoves(candidate: MonitorSet, index: nat, definition: Definition, prepared: bool, at: Moment,
          after: MonitorSet)
    requires SetInv(candidate) && at.nowMs >= 0 && index < |candidate.monitors|
    requires UpdateAt(candidate, index, definition, prepared, at) == Ok(after)
    ensures var id := candidate.monitors[index].monitorId;
            forall monitor | monitor in after.monitors ::
                OperationMoved(Update(id, definition), id, candidate.monitors, monitor)
  {
    var monitor := candidate.monitors[index];
    assert monitor in candidate.monitors;
    FreshMonitorInv(monitor.monitorId, definition, at.nowMs, candidate.log.nextEventId);
    var replacement := NewMonitor(monitor.monitorId, definition, at.nowMs).value;
    var renewed := replacement.(runtime := replacement.runtime.(generation := monitor.runtime.generation + 1));
    assert MonitorInv(renewed, candidate.log.nextEventId);
    ReplacedMoves(candidate, index, renewed, Updated, at, after);
  }

  /** Pausing or resuming the monitor at `index`, and logging it. */
  lemma WokenMoves(candidate: MonitorSet, index: nat, operation: Operation, bumped: Monitor, reason: EventReason,
          at: Moment, after: MonitorSet)
    requires SetInv(candidate) && at.nowMs >= 0 && index < |candidate.monitors|
    requires (operation.Pause? || operation.Resume?) && operation.monitorId == candidate.monitors[index].monitorId
    requires MonitorInv(bumped, candidate.log.nextEventId) && Woken(operation, candidate.monitors[index], bumped)
    requires ReplaceAndEmit(candidate, index, bumped, reason, at) == Ok(after)
    ensures forall monitor | monitor in after.monitors ::
            OperationMoved(operation, operation.monitorId, candidate.monitors, monitor)
  {
    ReplacedMoves(candidate, index, bumped, reason, at, after);
    forall changed | changed in after.monitors
      ensures OperationMoved(operation, operation.monitorId, candidate.monitors, changed)
    {
      if changed.monitorId == operation.monitorId {
        assert Woken(operation, candidate.monitors[index], changed);
      }
    }
  }

  lemma NothingMoves(operation: Operation, monitors: seq<Monitor>)
    requires operation.Pause? || operation.Resume?
    requires forall monitor | monitor in monitors ::
               monitor.monitorId == operation.monitorId && operation.Resume? ==> monitor.runtime.state != Paused
    ensures forall monitor | monitor in monitors :: OperationMoved(operation, operation.monitorId, monitors, monitor)
  {
    forall same | same in monitors
      ensures OperationMoved(operation, operation.monitorId, monitors, same)
    {
      assert Woken(operation, same, same);
    }
  }

  lemma PauseMoves(candidate: MonitorSet, index: nat, at: Moment, after: MonitorSet)
    requires SetInv(candidate) && at.nowMs >= 0 && index < |candidate.monitors|
             && PauseAt(candidate, index, at) == Ok(after)
    ensures var operation := Pause(candidate.monitors[index].monitorId);
            forall monitor | monitor in after.monitors ::
                OperationMoved(operation, operation.monitorId, candidate.monitors, monitor)
  {
    var monitor := candidate.monitors[index];
    var operation := Pause(monitor.monitorId);
    assert monitor in candidate.monitors;
    if monitor.Pause().1 {
      WokenMoves(candidate, index, operation, monitor.Pause().0.BumpGeneration().value, WasPaused, at, after);
    } else {
      NothingMoves(operation, candidate.monitors);
    }
  }

  lemma ResumeMoves(candidate: MonitorSet, index: nat, at: Moment, after: MonitorSet)
    requires SetInv(candidate) && at.nowMs >= 0 && index < |candidate.monitors|
             && ResumeAt(candidate, index, at) == Ok(after)
    ensures var operation := Resume(candidate.monitors[index].monitorId);
            forall monitor | monitor in after.monitors ::
                OperationMoved(operation, operation.monitorId, candidate.monitors, monitor)
  {
    var monitor := candidate.monitors[index];
    var operation := Resume(monitor.monitorId);
    assert monitor in candidate.monitors;
    ResumeKeeps(monitor, at.nowMs, candidate.log.nextEventId);
    var (resumed, did) := monitor.Resume(at.nowMs).value;
    if did {
      WokenMoves(candidate, index, operation, resumed.BumpGeneration().value, Resumed, at, after);
    } else {
      forall other | other in candidate.monitors && other.monitorId == monitor.monitorId ensures other == monitor {
        var i: nat :| i < |candidate.monitors| && candidate.monitors[i] == other;
      }
      NothingMoves(operation, candidate.monitors);
    }
  }

  lemma AddMoves(candidate: MonitorSet, definition: Definition, prepared: bool, at: Moment,
          after: MonitorSet, id: Bytes)
    requires SetInv(candidate) && at.nowMs >= 0 && definition.Validate() == None
    requires AddMonitor(candidate, definition, prepared, at) == Ok((after, id))
    ensures forall monitor | monitor in after.monitors ::
            OperationMoved(Add(definition), id, candidate.monitors, monitor)
  {
    AddKeeps(candidate, definition, prepared, at);
    assert forall monitor | monitor in after.monitors ::
             monitor in candidate.monitors || monitor == after.monitors[|candidate.monitors|];
    assert forall monitor | monitor in candidate.monitors :: monitor.monitorId in IdSet(candidate.monitors);
  }

  lemma OperateMoves(saved: Option<MonitorSet>, sessionId: Bytes, operation: Operation, prepared: bool, at: Moment,
          after: MonitorSet, id: Bytes)
    requires SavedInv(saved, sessionId) && at.nowMs >= 0
    requires MonitorSets.Operate(saved, sessionId, operation, prepared, at) == Ok((after, id))
    ensures var before := if saved.Some? then saved.value.monitors else [];
            forall monitor | monitor in after.monitors :: OperationMoved(operation, id, before, monitor)
    ensures !operation.Add? ==> id == operation.monitorId
  {
    OperateUnfolds(saved, sessionId, operation, prepared, at, after, id);
    if operation.Add? {
      AddMoves(OperatedOn(saved, sessionId, at), operation.definition, prepared, at, after, id);
    } else {
      ChangeMoves(OperatedOn(saved, sessionId, at), operation, prepared, at, after);
    }
  }

  /** Which monitors an operation leaves present. */
  function PresentAfter(operation: Operation, id: Bytes, before: set<Bytes>): set<Bytes> {
    match operation
    case Add(_) => before + {id}
    case Remove(_) => before - {id}
    case _ => before
  }

  lemma ReplacedIds(monitors: seq<Monitor>, index: nat, changed: Monitor)
    requires index < |monitors| && changed.monitorId == monitors[index].monitorId
    ensures IdSet(monitors[index := changed]) == IdSet(monitors)
  {
    var after := monitors[index := changed];
    forall id ensures id in IdSet(after) <==> id in IdSet(monitors) {
      if id in IdSet(after) {
        var i: nat :| i < |after| && after[i].monitorId == id;
        assert monitors[i] in monitors;
      }
      if id in IdSet(monitors) {
        var i: nat :| i < |monitors| && monitors[i].monitorId == id;
        assert after[i] in after;
      }
    }
  }

  lemma RemovedIds(monitors: seq<Monitor>, index: nat)
    requires index < |monitors| && DistinctIds(monitors)
    ensures IdSet(Replace(monitors, index, None)) == IdSet(monitors) - {monitors[index].monitorId}
  {
    var after := Replace(monitors, index, None);
    assert after == monitors[..index] + monitors[index + 1..];
    forall id ensures id in IdSet(after) <==> id in IdSet(monitors) && id != monitors[index].monitorId {
      if id in IdSet(after) {
        var monitor :| monitor in after && monitor.monitorId == id;
        var i: nat :| i < |monitors| && i != index && monitors[i] == monitor;
      }
      if id in IdSet(monitors) && id != monitors[index].monitorId {
        var i: nat :| i < |monitors| && monitors[i].monitorId == id;
        assert i < index || index < i;
        assert monitors[i] in after;
      }
    }
  }

  lemma PutBackPresence(candidate: MonitorSet, index: nat, changed: Monitor, reason: EventReason, at: Moment,
          after: MonitorSet)
    requires index < |candidate.monitors| && changed.monitorId == candidate.monitors[index].monitorId
    requires ReplaceAndEmit(candidate, index, changed, reason, at) == Ok(after)
    ensures IdSet(after.monitors) == IdSet(candidate.monitors)
  {
    var (noted, _) := Emit(changed, candidate.log, reason, at).value;
    assert noted.monitorId == changed.monitorId;
    ReplacedIds(candidate.monitors, index, noted);
  }

  lemma ChangePresence(candidate: MonitorSet, operation: Operation, prepared: bool, at: Moment, after: MonitorSet)
    requires SetInv(candidate) && at.nowMs >= 0 && !operation.Add?
             && ChangeMonitor(candidate, operation, prepared, at) == Ok(after)
    ensures operation.monitorId in IdSet(candidate.monitors)
    ensures IdSet(after.monitors) == PresentAfter(operation, operation.monitorId, IdSet(candidate.monitors))
  {
    FoundIndexInRange(candidate.monitors, operation.monitorId);
    var index := FindMonitor(candidate.monitors, operation.monitorId).value;
    var monitor := candidate.monitors[index];
    assert monitor in candidate.monitors;
    match operation {
      case Update(_, definition) =>
        var replacement := NewMonitor(monitor.monitorId, definition, at.nowMs).value;
        PutBackPresence(candidate, index,
            replacement.(runtime := replacement.runtime.(generation := monitor.runtime.generation + 1)),
                        Updated, at, after);
      case Pause(_) =>
        if monitor.Pause().1 {
          PutBackPresence(candidate, index, monitor.Pause().0.BumpGeneration().value, WasPaused, at, after);
        }
      case Resume(_) =>
        var (resumed, did) := monitor.Resume(at.nowMs).value;
        if did {
          PutBackPresence(candidate, index, resumed.BumpGeneration().value, Resumed, at, after);
        }
      case Remove(_) =>
        RemovedIds(candidate.monitors, index);
    }
  }

  lemma OperatePresence(saved: Option<MonitorSet>, sessionId: Bytes, operation: Operation, prepared: bool, at: Moment,
          after: MonitorSet, id: Bytes)
    requires SavedInv(saved, sessionId) && at.nowMs >= 0
    requires MonitorSets.Operate(saved, sessionId, operation, prepared, at) == Ok((after, id))
    ensures IdSet(after.monitors) == PresentAfter(operation, id, IdSet(MonitorsOf(saved)))
    ensures !operation.Add? ==> id in IdSet(MonitorsOf(saved))
  {
    OperateUnfolds(saved, sessionId, operation, prepared, at, after, id);
    var candidate := OperatedOn(saved, sessionId, at);
    if operation.Add? {
      var added := after.monitors[|candidate.monitors|];
      assert forall m :: m in after.monitors <==> m in candidate.monitors || m == added;
    } else {
      ChangePresence(candidate, operation, prepared, at, after);
    }
  }

  lemma OperatedMonitorTracked(session: Session, operation: Operation, id: Bytes, before: seq<Monitor>,
          monitor: Monitor, cursor: U64, nextEventId: int)
    requires MonitorInv(monitor, nextEventId) && cursor <= |session.stream|
    requires forall m | m in before :: Tracked(m, session.feeds, cursor, session.stream)
    requires OperationMoved(operation, id, before, monitor)
    ensures Tracked(monitor, FeedOperated(session.feeds, operation, id, cursor), cursor, session.stream)
  {
    if monitor.monitorId != id || operation.Remove? {
      assert Tracked(monitor, session.feeds, cursor, session.stream);
    } else if operation.Add? || operation.Update? {
      FreshIsRight(monitor, nextEventId);
      assert session.stream[cursor..cursor] == [];
    } else {
      var origin :| origin in before && Woken(operation, origin, monitor);
      assert Tracked(origin, session.feeds, cursor, session.stream);
    }
  }

  lemma OperateKeepsSession(session: Session, operation: Operation, prepared: bool, at: Moment)
    requires SessionInv(session) && at.cursorOffset <= |session.stream| && at.nowMs >= 0
    ensures SessionInv(OperateStep(session, operation, prepared, at))
  {
    OperateKeeps(session.saved, session.sessionId, operation, prepared, at);
    var result := MonitorSets.Operate(session.saved, session.sessionId, operation, prepared, at);
    if result.Ok? {
      var (stored, id) := result.value;
      OperateMoves(session.saved, session.sessionId, operation, prepared, at, stored, id);
      var before := if session.saved.Some? then session.saved.value.monitors else [];
      forall monitor | monitor in stored.monitors
        ensures Tracked(monitor, FeedOperated(session.feeds, operation, id, stored.cursorOffset), stored.cursorOffset,
                session.stream)
      {
        OperatedMonitorTracked(session, operation, id, before, monitor, stored.cursorOffset, stored.log.nextEventId);
      }
    }
  }

  lemma InstallKeepsSession(session: Session, definitions: seq<Definition>, prepared: seq<bool>,
          lifecycle: Lifecycle, nowMs: I64)
    requires SessionInv(session) && |prepared| == |definitions| && nowMs >= 0
    ensures SessionInv(InstallStep(session, definitions, prepared, lifecycle, nowMs))
  {
    InstallKeeps(session.saved, session.sessionId, definitions, prepared, lifecycle, nowMs);
    var result := InstallInitial(session.saved, session.sessionId, definitions, prepared, lifecycle, nowMs);
    if result.Ok? && result.value.Some? {
      var stored := result.value.value;
      LoadSucceeds(session.saved, session.sessionId);
      InstalledAreFresh(definitions, 1, prepared, nowMs);
      InstalledAreTracked(stored, session.stream);
    }
  }

  lemma InstalledAreTracked(stored: MonitorSet, stream: Bytes)
    requires SetInv(stored)
    requires forall m | m in stored.monitors ::
               !m.runtime.conditionMatched && m.runtime.matcherStates == BitWords.ZERO_WORDS
                   && m.runtime.state == Active
    ensures forall m | m in stored.monitors :: Tracked(m, FeedInstalled(stored.monitors), 0, stream)
  {
    forall monitor | monitor in stored.monitors
      ensures Tracked(monitor, FeedInstalled(stored.monitors), 0, stream)
    {
      FreshIsRight(monitor, stored.log.nextEventId);
      assert monitor.monitorId in IdSet(stored.monitors) && stream[0..0] == [];
    }
  }

  lemma InspectKeepsSession(session: Session, after: Option<U64>, acknowledge: Option<U64>, maxEvents: nat)
    requires SessionInv(session)
    ensures SessionInv(InspectStep(session, after, acknowledge, maxEvents))
  {
    InspectKeeps(session.saved, session.sessionId, after, acknowledge, maxEvents);
  }

  lemma EndKeepsSession(session: Session, nowMs: I64)
    requires SessionInv(session) && nowMs >= 0
    ensures SessionInv(EndStep(session, nowMs))
  {
    EndSessionKeeps(session.saved, session.sessionId, Closed, nowMs);
  }

  lemma ReadKeepsSession(session: Session, segment: U64, offset: U64)
    requires SessionInv(session)
    ensures SessionInv(ReadStep(session, segment, offset))
  {
  }

  lemma {:induction false} InstalledAreFresh(definitions: seq<Definition>, sequence: U64,
          prepared: seq<bool>, nowMs: I64)
    requires |prepared| == |definitions|
    ensures var built := BuildInitial(definitions, sequence, prepared, nowMs);
            built.Ok? ==> forall monitor | monitor in built.value ::
              !monitor.runtime.conditionMatched && monitor.runtime.matcherStates == BitWords.ZERO_WORDS
                  && monitor.runtime.state == Active
    decreases |definitions|
  {
    if definitions != [] && sequence < MAX_U64 {
      InstalledAreFresh(definitions[1..], sequence + 1, prepared[1..], nowMs);
    }
  }

  lemma NextKeeps(session: Session, step: Step)
    requires SessionInv(session) && Enabled(session, step)
    ensures SessionInv(Next(session, step))
  {
    match step {
      case Write(bytes) => WriteKeeps(session, bytes);
      case Stop(_, _, _) =>
      case Request => RequestKeeps(session);
      case Glance(screenText) => GlanceKeeps(session, screenText);
      case Judge(pollMatched, nowMs) => JudgeKeeps(session, pollMatched, nowMs);
      case Install(definitions, prepared, lifecycle, nowMs) =>
          InstallKeepsSession(session, definitions, prepared, lifecycle, nowMs);
      case Operate(operation, prepared, at) => OperateKeepsSession(session, operation, prepared, at);
      case Inspect(after, acknowledge, maxEvents) => InspectKeepsSession(session, after, acknowledge, maxEvents);
      case Read(segment, offset) => ReadKeepsSession(session, segment, offset);
      case Close =>
      case EndClosed(nowMs) => EndKeepsSession(session, nowMs);
    }
  }

  // Every run.

  ghost predicate IsRun(first: Session, steps: seq<Step>, last: Session)
    decreases |steps|
  {
    if steps == [] then first == last
    else Enabled(first, steps[0]) && IsRun(Next(first, steps[0]), steps[1..], last)
  }

  lemma {:induction false} RunKeeps(first: Session, steps: seq<Step>, last: Session)
    requires SessionInv(first) && IsRun(first, steps, last)
    ensures SessionInv(last)
    decreases |steps|
  {
    if steps != [] {
      NextKeeps(first, steps[0]);
      RunKeeps(Next(first, steps[0]), steps[1..], last);
    }
  }

  /**
   * End to end, under every interleaving: an output monitor that is present and was never paused while it could hear
   * has matched exactly when its pattern occurs in the (non-empty) stretch of the stream from where it was installed
   * to the saved cursor, or to its first loss; and from a loss on it is degraded.
   */
  lemma {:induction false} DetectionIsExact(sessionId: Bytes, steps: seq<Step>, last: Session, monitor: Monitor)
    requires ValidSessionId(sessionId) && IsRun(Begin(sessionId), steps, last)
    requires last.saved.Some? && monitor in last.saved.value.monitors && monitor.definition.condition.ReadsOutput()
    ensures monitor.monitorId in last.feeds
    ensures var feed, cursor := last.feeds[monitor.monitorId], last.saved.value.cursorOffset;
            var condition, heard := monitor.definition.condition, HeardUpTo(feed, cursor);
            && feed.from <= heard <= cursor <= |last.stream|
            && (monitor.runtime.conditionMatched <==> Found(condition, feed.text))
            && (feed.lost.Some? <==> monitor.runtime.state == Degraded)
            && (!feed.everPaused ==>
                  (monitor.runtime.conditionMatched <==>
                   feed.from < heard
                       && Glob.Occurs(condition.pattern, condition.OutputMatches?, last.stream[feed.from..heard])))
  {
    RunKeeps(Begin(sessionId), steps, last);
    assert Tracked(monitor, last.feeds, last.saved.value.cursorOffset, last.stream);
  }

  /** The only observation ever in flight continues at the saved cursor, so none is discarded as stale. */
  lemma {:induction false} NoObservationIsStale(sessionId: Bytes, steps: seq<Step>, last: Session)
    requires ValidSessionId(sessionId) && IsRun(Begin(sessionId), steps, last)
    requires last.worker.Saw? && last.worker.observation.Some?
    ensures last.saved.Some?
    ensures var observation := last.worker.observation.value;
            && observation.cursorStart <= observation.cursorEnd <= |last.stream|
            && observation.output == last.stream[observation.cursorStart..observation.cursorEnd]
            && if observation.rawGap then last.saved.value.cursorOffset < observation.cursorStart
               else observation.cursorStart == last.saved.value.cursorOffset
  {
    RunKeeps(Begin(sessionId), steps, last);
  }
}
