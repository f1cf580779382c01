// Whole runs of the store: identifiers are never reissued, a paging client misses only what the
// reported gap covers, and evaluation treats every monitor once and in order.

module StoreRuns {
  import opened Basics
  import opened Schedule
  import opened Monitors
  import opened MonitorSets
  import opened SetInvariants
  import opened StoreTheorems

  // Runs.

  datatype StoreStep =
    | Install(definitions: seq<Definition>, prepared: seq<bool>, lifecycle: Lifecycle, nowMs: I64)
    | Operate(operation: Operation, preparedOne: bool, at: Moment)
    | Evaluate(observation: TerminalObservation, pollMatched: bool, nowMs: I64)
    | End(lifecycle: Lifecycle, nowMs: I64)
    | Inspect(after: Option<U64>, acknowledge: Option<U64>, maxEvents: nat)
  {
    /** What every caller supplies: a clock past the epoch and an observation that runs forward. */
    predicate Sensible() {
      match this
      case Install(definitions, prepared, _, nowMs) => |prepared| == |definitions| && nowMs >= 0
      case Operate(_, _, at) => at.nowMs >= 0
      case Evaluate(observation, _, nowMs) => nowMs >= 0 && observation.cursorStart <= observation.cursorEnd
      case End(_, nowMs) => nowMs >= 0
      case Inspect(_, _, _) => true
    }
  }

  function WrittenBy(saved: Option<MonitorSet>, sessionId: Bytes,
          step: StoreStep): Result<Option<MonitorSet>, StoreError>
    requires step.Sensible()
  {
    match step
    case Install(definitions, prepared, lifecycle, nowMs) =>
        InstallInitial(saved, sessionId, definitions, prepared, lifecycle, nowMs)
    case Operate(operation, prepared, at) =>
      var (after, _) :- MonitorSets.Operate(saved, sessionId, operation, prepared, at);
      Ok(Some(after))
    case Evaluate(observation, pollMatched, nowMs) =>
        MonitorSets.Evaluate(saved, sessionId, observation, pollMatched, nowMs)
    case End(lifecycle, nowMs) => EndSession(saved, sessionId, lifecycle, nowMs)
    case Inspect(after, acknowledge, maxEvents) =>
      var (written, _) :- MonitorSets.Inspect(saved, sessionId, after, acknowledge, maxEvents);
      Ok(written)
  }

  /** What is on disk after the step: a failed step writes nothing. */
  function Next(saved: Option<MonitorSet>, sessionId: Bytes, step: StoreStep): Option<MonitorSet>
    requires step.Sensible()
  {
    match WrittenBy(saved, sessionId, step)
    case Err(_) => saved
    case Ok(written) => Overwrite(saved, written)
  }

  /** The identifiers the step hands out for new monitors, oldest first. */
  function IdsIssued(saved: Option<MonitorSet>, sessionId: Bytes, step: StoreStep): seq<Bytes>
    requires step.Sensible()
  {
    match WrittenBy(saved, sessionId, step)
    case Err(_) => []
    case Ok(written) =>
      if step.Install? && written.Some? then Ids(written.value.monitors)
      else if step.Operate? && step.operation.Add? then
        [MonitorSets.Operate(saved, sessionId, step.operation, step.preparedOne, step.at).value.1]
      else []
  }

  function Ids(monitors: seq<Monitor>): (ids: seq<Bytes>)
    ensures |ids| == |monitors| && forall i: nat | i < |ids| :: ids[i] == monitors[i].monitorId
  {
    if monitors == [] then [] else [monitors[0].monitorId] + Ids(monitors[1..])
  }

  function NextNumber(saved: Option<MonitorSet>): int {
    if saved.Some? then saved.value.nextMonitorId else 1
  }

  /** The k-th identifier is the one generated from sequence number `from` + k. */
  predicate IdAt(id: Bytes, number: int) {
    0 < number <= MAX_U64 && StableId(number) == Ok(id)
  }

  predicate Consecutive(ids: seq<Bytes>, from: int) {
    forall k: nat | k < |ids| :: IdAt(ids[k], from + k)
  }

  lemma ConsecutiveAppend(first: seq<Bytes>, second: seq<Bytes>, from: int)
    requires Consecutive(first, from) && Consecutive(second, from + |first|)
    ensures Consecutive(first + second, from)
  {
    forall k: nat | k < |first + second|
      ensures IdAt((first + second)[k], from + k)
    {
      assert k >= |first| ==> IdAt(second[k - |first|], from + |first| + (k - |first|));
    }
  }

  /**
   * The step leaves a set the store accepts, fails only for the caller's or the counters' reasons, and numbers its
   * monitors on.
   */
  ghost predicate StepIsSound(saved: Option<MonitorSet>, sessionId: Bytes, step: StoreStep)
    requires step.Sensible()
  {
    var ids := IdsIssued(saved, sessionId, step);
    && SavedInv(Next(saved, sessionId, step), sessionId)
    && (match WrittenBy(saved, sessionId, step)
        case Err(error) => AcceptableError(error) || error == Corrupt(InitialSetExists)
        case Ok(_) => true)
    && NextNumber(Next(saved, sessionId, step)) == NextNumber(saved) + |ids|
    && Consecutive(ids, NextNumber(saved))
  }

  lemma InstallIsSound(saved: Option<MonitorSet>, sessionId: Bytes, step: StoreStep)
    requires SavedInv(saved, sessionId) && step.Sensible() && step.Install?
    ensures StepIsSound(saved, sessionId, step)
  {
    InstallKeeps(saved, sessionId, step.definitions, step.prepared, step.lifecycle, step.nowMs);
    var written := WrittenBy(saved, sessionId, step);
    if written.Ok? && written.value.Some? {
      var monitors := written.value.value.monitors;
      assert forall k: nat | k < |monitors| :: NumberedAs(monitors[k], 1 + k) ==> IdAt(Ids(monitors)[k], 1 + k);
    }
  }

  lemma OperateIsSound(saved: Option<MonitorSet>, sessionId: Bytes, step: StoreStep)
    requires SavedInv(saved, sessionId) && step.Sensible() && step.Operate?
    ensures StepIsSound(saved, sessionId, step)
  {
    OperateKeeps(saved, sessionId, step.operation, step.preparedOne, step.at);
    match MonitorSets.Operate(saved, sessionId, step.operation, step.preparedOne, step.at) {
      case Err(_) => RefusedOperation(saved, sessionId, step);
      case Ok((after, id)) => AcceptedOperation(saved, sessionId, step, after, id);
    }
  }

  lemma RefusedOperation(saved: Option<MonitorSet>, sessionId: Bytes, step: StoreStep)
    requires step.Sensible() && step.Operate?
             && MonitorSets.Operate(saved, sessionId, step.operation, step.preparedOne, step.at).Err?
    ensures Next(saved, sessionId, step) == saved && IdsIssued(saved, sessionId, step) == []
  {
  }

  lemma AcceptedOperation(saved: Option<MonitorSet>, sessionId: Bytes, step: StoreStep, after: MonitorSet, id: Bytes)
    requires step.Sensible() && step.Operate?
    requires MonitorSets.Operate(saved, sessionId, step.operation, step.preparedOne, step.at) == Ok((after, id))
    ensures Next(saved, sessionId, step) == Some(after)
    ensures IdsIssued(saved, sessionId, step) == if step.operation.Add? then [id] else []
  {
  }

  lemma OtherIsSound(saved: Option<MonitorSet>, sessionId: Bytes, step: StoreStep)
    requires SavedInv(saved, sessionId) && step.Sensible() && !step.Install? && !step.Operate?
    ensures StepIsSound(saved, sessionId, step)
  {
    match step {
      case Evaluate(observation, pollMatched, nowMs) =>
          EvaluateKeeps(saved, sessionId, observation, pollMatched, nowMs);
      case End(lifecycle, nowMs) => EndSessionKeeps(saved, sessionId, lifecycle, nowMs);
      case Inspect(after, acknowledge, maxEvents) => InspectKeeps(saved, sessionId, after, acknowledge, maxEvents);
    }
  }

  lemma StepKeeps(saved: Option<MonitorSet>, sessionId: Bytes, step: StoreStep)
    requires SavedInv(saved, sessionId) && step.Sensible()
    ensures StepIsSound(saved, sessionId, step)
  {
    if step.Install? {
      InstallIsSound(saved, sessionId, step);
    } else if step.Operate? {
      OperateIsSound(saved, sessionId, step);
    } else {
      OtherIsSound(saved, sessionId, step);
    }
  }

  function Run(saved: Option<MonitorSet>, sessionId: Bytes, steps: seq<StoreStep>): Option<MonitorSet>
    requires forall step | step in steps :: step.Sensible()
    decreases |steps|
  {
    if steps == [] then saved else Run(Next(saved, sessionId, steps[0]), sessionId, steps[1..])
  }

  function AllIds(saved: Option<MonitorSet>, sessionId: Bytes, steps: seq<StoreStep>): seq<Bytes>
    requires forall step | step in steps :: step.Sensible()
    decreases |steps|
  {
    if steps == [] then []
    else IdsIssued(saved, sessionId, steps[0]) + AllIds(Next(saved, sessionId, steps[0]), sessionId, steps[1..])
  }

  /** From any saved set that keeps the invariant, every run keeps it and issues consecutive numbers. */
  lemma {:induction false} RunKeeps(saved: Option<MonitorSet>, sessionId: Bytes, steps: seq<StoreStep>)
    requires SavedInv(saved, sessionId)
    requires forall step | step in steps :: step.Sensible()
    ensures SavedInv(Run(saved, sessionId, steps), sessionId)
    ensures Consecutive(AllIds(saved, sessionId, steps), NextNumber(saved))
    decreases |steps|
  {
    if steps != [] {
      assert steps[0] in steps;
      StepKeeps(saved, sessionId, steps[0]);
      var next, issued := Next(saved, sessionId, steps[0]), IdsIssued(saved, sessionId, steps[0]);
      RunKeeps(next, sessionId, steps[1..]);
      ConsecutiveAppend(issued, AllIds(next, sessionId, steps[1..]), NextNumber(saved));
    }
  }

  /** The id is still in the log, was acknowledged, or lies in the reported gap. */
  predicate AccountedFor(log: EventLog, id: nat) {
    || id <= log.acknowledgedThrough
    || id <= log.gapThrough
    || exists event :: event in log.events && event.eventId == id
  }

  /** Every reachable set: nothing saved yet, then any run. Its log accounts for every id ever issued. */
  lemma {:induction false} ReachableSets(sessionId: Bytes, steps: seq<StoreStep>)
    requires ValidSessionId(sessionId)
    requires forall step | step in steps :: step.Sensible()
    ensures var saved := Run(None, sessionId, steps);
            saved.Some? ==>
              && Validate(saved.value, sessionId) == None
              && forall id: nat {:trigger AccountedFor(saved.value.log, id)} | 0 < id ::
                   id < saved.value.log.nextEventId <==> AccountedFor(saved.value.log, id)
  {
    RunKeeps(None, sessionId, steps);
    var saved := Run(None, sessionId, steps);
    if saved.Some? {
      SetInvIsValid(saved.value);
      forall id: nat {:trigger AccountedFor(saved.value.log, id)} | 0 < id
        ensures id < saved.value.log.nextEventId <==> AccountedFor(saved.value.log, id)
      {
        EveryIdAccountedFor(saved.value.log, id);
      }
    }
  }

  /** No identifier is ever handed out twice in a session, even after its monitor is gone. */
  lemma {:induction false} NoIdReissued(sessionId: Bytes, steps: seq<StoreStep>, i: nat, j: nat)
    requires ValidSessionId(sessionId)
    requires forall step | step in steps :: step.Sensible()
    requires i < j < |AllIds(None, sessionId, steps)|
    ensures AllIds(None, sessionId, steps)[i] != AllIds(None, sessionId, steps)[j]
  {
    RunKeeps(None, sessionId, steps);
    ConsecutiveDiffer(AllIds(None, sessionId, steps), NextNumber(None), i, j);
  }

  lemma ConsecutiveDiffer(ids: seq<Bytes>, from: int, i: nat, j: nat)
    requires Consecutive(ids, from) && i < j < |ids|
    ensures ids[i] != ids[j]
  {
    assert IdAt(ids[i], from + i) && IdAt(ids[j], from + j);
    StableIdIsFaithful(from + i, from + j);
  }

  // A client that always asks for what follows the last event it saw, and acknowledges that event.

  datatype Client = Client(last: nat, seen: seq<nat>, gapReported: nat)

  function EventIds(events: seq<MonitorEvent>): seq<nat> {
    if events == [] then [] else [events[0].eventId] + EventIds(events[1..])
  }

  function Cursor(client: Client): Option<U64>
    requires client.last <= MAX_U64
  {
    if client.last == 0 then None else Some(client.last)
  }

  function Receive(client: Client, page: Page): Client {
    var ids := EventIds(page.events);
    Client(if ids == [] then client.last else ids[|ids| - 1], client.seen + ids, page.gapThrough)
  }

  predicate Ascending(ids: seq<nat>) {
    forall i: nat, j: nat | i < j < |ids| :: ids[i] < ids[j]
  }

  predicate Retained(log: EventLog, id: nat) {
    Max(log.gapThrough, log.acknowledgedThrough) < id < log.nextEventId
  }

  /** The client has seen, in increasing order, everything up to its cursor that no gap swallowed. */
  predicate ClientInv(client: Client, log: EventLog) {
    && Ascending(client.seen)
    && (forall k: nat | k < |client.seen| :: 0 < client.seen[k] <= client.last)
    && client.last < log.nextEventId
    && log.acknowledgedThrough <= client.last
    && client.gapReported <= log.gapThrough
    && forall id: nat | 0 < id <= client.last :: id in client.seen || id <= client.gapReported
  }

  lemma {:induction false} EventIdsOfRange(events: seq<MonitorEvent>, base: nat)
    requires forall k: nat | k < |events| :: events[k].eventId == base + 1 + k
    ensures |EventIds(events)| == |events| && forall k: nat | k < |events| :: EventIds(events)[k] == base + 1 + k
  {
    if events != [] {
      EventIdsOfRange(events[1..], base + 1);
    }
  }

  /** A page taken from the start of the retained events above the client's cursor. */
  lemma PageExtends(client: Client, page: Page, log: EventLog)
    requires ClientInv(client, log) && log.acknowledgedThrough == client.last && LogInv(log)
    requires page.gapThrough == log.gapThrough && page.events <= log.events
    ensures ClientInv(Receive(client, page), log)
    ensures client.seen <= Receive(client, page).seen
  {
    var base, ids, received := Max(log.gapThrough, client.last), EventIds(page.events), Receive(client, page);
    assert forall k: nat | k < |page.events| :: page.events[k] == log.events[k];
    EventIdsOfRange(page.events, base);
    forall id: nat | 0 < id <= received.last
      ensures id in received.seen || id <= received.gapReported
    {
      if base < id {
        assert ids[id - base - 1] == id && received.seen[|client.seen| + (id - base - 1)] == id;
      } else if id <= client.last {
        assert id in client.seen ==> id in received.seen;
      }
    }
  }

  lemma PagesAreWhatIsRetained(client: Client, page: Page, log: EventLog)
    requires ClientInv(client, log) && log.acknowledgedThrough == client.last && LogInv(log)
    requires page.gapThrough == log.gapThrough && page.events <= log.events && (page.events == [] ==> log.events == [])
    ensures var received := Receive(client, page);
            forall id: nat | 0 < id < log.nextEventId && id !in received.seen ::
              (id > received.gapReported ==> Retained(log, id) && id > received.last)
                  && (Retained(log, id) ==> id > received.gapReported)
  {
    PageExtends(client, page, log);
    var received := Receive(client, page);
    forall id: nat | 0 < id < log.nextEventId && id !in received.seen && id > received.gapReported
      ensures Retained(log, id) && id > received.last
    {
      assert id in client.seen ==> id in received.seen;
    }
  }

  lemma PageFromLog(view: MonitorSet, last: nat, after: Option<U64>, maxEvents: nat)
    requires LogInv(view.log) && view.log.acknowledgedThrough == last && maxEvents > 0
    requires after == if last == 0 then None else Some(last)
    ensures var page := PageOf(view, after, maxEvents);
            page.events == view.log.events[..Min(maxEvents, |view.log.events|)]
                && page.gapThrough == view.log.gapThrough
  {
    AfterDropsPrefix(view.log.events, Max(view.log.gapThrough, last), last);
  }

  /** The monitors of a set as a page lists them. */
  predicate Lists(page: Page, monitors: seq<Monitor>) {
    |page.monitors| == |monitors|
    && forall i: nat | i < |monitors| ::
         page.monitors[i] == MonitorSets.Summary(monitors[i].monitorId, monitors[i].runtime.state)
  }

  lemma {:induction false} SummariesList(monitors: seq<Monitor>)
    ensures |Summaries(monitors)| == |monitors|
    ensures forall i: nat | i < |monitors| ::
              Summaries(monitors)[i] == MonitorSets.Summary(monitors[i].monitorId, monitors[i].runtime.state)
    decreases |monitors|
  {
    if monitors != [] {
      SummariesList(monitors[1..]);
    }
  }

  /**
   * A page asked for after any event, acknowledged or not, holds the retained events above it, the first ones and no
   * more than asked for, next to every monitor and its state.
   */
  lemma PageFollowsItsCursor(view: MonitorSet, after: Option<U64>, maxEvents: nat)
    requires LogInv(view.log)
    ensures var page, log := PageOf(view, after, maxEvents), view.log;
            var from := if after.Some? then after.value else log.acknowledgedThrough;
            var first := Max(from, Max(log.gapThrough, log.acknowledgedThrough)) + 1;
            && |page.events| == Min(maxEvents, Max(log.nextEventId - first, 0))
            && (forall k: nat | k < |page.events| :: page.events[k].eventId == first + k
                                                     && page.events[k] in log.events)
            && page.gapThrough == log.gapThrough && page.nextEventId == log.nextEventId
            && Lists(page, view.monitors)
  {
    var log := view.log;
    var from := if after.Some? then after.value else log.acknowledgedThrough;
    UnreadEvents(log.events, Max(log.gapThrough, log.acknowledgedThrough), from, After(log.events, from));
    SummariesList(view.monitors);
  }

  lemma UnreadEvents(events: seq<MonitorEvent>, base: nat, from: U64, unread: seq<MonitorEvent>)
    requires forall k: nat | k < |events| :: events[k].eventId == base + 1 + k
    requires unread == After(events, from)
    ensures |unread| == Max(base + |events| - Max(from, base), 0)
    ensures forall k: nat | k < |unread| :: unread[k].eventId == Max(from, base) + 1 + k && unread[k] in events
  {
    AfterDropsPrefix(events, base, from);
  }

  /**
   * One page: the new ids continue upwards and none is repeated. Afterwards an issued, unseen id is
   * still to come, above the cursor, exactly when it lies above the gap reported on this very page.
   */
  lemma PageDelivers(saved: MonitorSet, sessionId: Bytes, client: Client, maxEvents: nat)
    requires SavedInv(Some(saved), sessionId) && ClientInv(client, saved.log)
    requires 0 < maxEvents <= 256
    ensures var reply := MonitorSets.Inspect(Some(saved), sessionId, Cursor(client), Cursor(client), maxEvents);
            && reply.Ok?
            && var (written, page) := reply.value;
               var after, received := Overwrite(Some(saved), written).value.log, Receive(client, page);
               && ClientInv(received, after)
               && client.seen <= received.seen
               && after.nextEventId == saved.log.nextEventId
               && forall id: nat | 0 < id < after.nextEventId && id !in received.seen ::
                    (id > received.gapReported ==> Retained(after, id) && id > received.last)
                        && (Retained(after, id) ==> id > received.gapReported)
  {
    LoadSucceeds(Some(saved), sessionId);
    var view := saved;
    if client.last > 0 {
      AcknowledgeKeepsLog(saved.log, client.last);
      view := saved.(log := Acknowledge(saved.log, client.last));
      SetInvIsValid(view);
    }
    var page := PageOf(view, Cursor(client), maxEvents);
    PageFromLog(view, client.last, Cursor(client), maxEvents);
    PageExtends(client, page, view.log);
    PagesAreWhatIsRetained(client, page, view.log);
  }

  // The client beside any number of other store steps.

  datatype SessionStep = Server(step: StoreStep) | Poll(maxEvents: nat) {
    /** Nobody but this client acknowledges, and it asks for pages of a legal size. */
    predicate Proper() {
      match this
      case Server(inner) => inner.Sensible() && !inner.Inspect?
      case Poll(maxEvents) => 0 < maxEvents <= 256
    }
  }

  function LogOf(saved: Option<MonitorSet>): EventLog {
    if saved.Some? then saved.value.log else EventLog(1, 0, 0, [])
  }

  lemma ServerStepGrows(saved: Option<MonitorSet>, sessionId: Bytes, step: StoreStep)
    requires SavedInv(saved, sessionId) && step.Sensible() && !step.Inspect?
    ensures LogGrows(LogOf(saved), LogOf(Next(saved, sessionId, step)))
  {
    match step
    case Install(definitions, prepared, lifecycle, nowMs) =>
        InstallKeeps(saved, sessionId, definitions, prepared, lifecycle, nowMs);
    case Operate(operation, prepared, at) => OperateKeeps(saved, sessionId, operation, prepared, at);
    case Evaluate(observation, pollMatched, nowMs) => EvaluateKeeps(saved, sessionId, observation, pollMatched, nowMs);
    case End(lifecycle, nowMs) => EndSessionKeeps(saved, sessionId, lifecycle, nowMs);
  }

  function Advance(saved: Option<MonitorSet>, sessionId: Bytes, client: Client,
          step: SessionStep): (Option<MonitorSet>, Client)
    requires step.Proper()
  {
    match step
    case Server(inner) => (Next(saved, sessionId, inner), client)
    case Poll(maxEvents) =>
      if client.last > MAX_U64 then (saved, client)
      else match MonitorSets.Inspect(saved, sessionId, Cursor(client), Cursor(client), maxEvents)
        case Err(_) => (saved, client)
        case Ok((written, page)) => (Overwrite(saved, written), Receive(client, page))
  }

  /** One step of a session keeps the client's account complete, and what it has seen only grows. */
  lemma AdvanceKeeps(saved: Option<MonitorSet>, sessionId: Bytes, client: Client, step: SessionStep)
    requires SavedInv(saved, sessionId) && ClientInv(client, LogOf(saved)) && step.Proper()
    ensures var (after, received) := Advance(saved, sessionId, client, step);
            SavedInv(after, sessionId) && ClientInv(received, LogOf(after)) && client.seen <= received.seen
  {
    match step
    case Server(inner) =>
      StepKeeps(saved, sessionId, inner);
      ServerStepGrows(saved, sessionId, inner);
    case Poll(maxEvents) =>
      LoadSucceeds(saved, sessionId);
      InspectKeeps(saved, sessionId, Cursor(client), Cursor(client), maxEvents);
      if saved.Some? {
        PageDelivers(saved.value, sessionId, client, maxEvents);
      }
  }

  function Session(saved: Option<MonitorSet>, sessionId: Bytes, client: Client,
          steps: seq<SessionStep>): (Option<MonitorSet>, Client)
    requires forall step | step in steps :: step.Proper()
    decreases |steps|
  {
    if steps == [] then (saved, client)
    else
      assert steps[0] in steps;
      var (after, received) := Advance(saved, sessionId, client, steps[0]);
      Session(after, sessionId, received, steps[1..])
  }

  /**
   * Over a whole session of a sole paging client, the ids it receives strictly increase, each once,
   * and every id up to its cursor that it did not receive lies at or below the gap reported to it.
   */
  lemma {:induction false} SessionDelivers(saved: Option<MonitorSet>, sessionId: Bytes, client: Client,
          steps: seq<SessionStep>)
    requires SavedInv(saved, sessionId) && ClientInv(client, LogOf(saved))
    requires forall step | step in steps :: step.Proper()
    ensures var (after, received) := Session(saved, sessionId, client, steps);
            SavedInv(after, sessionId) && ClientInv(received, LogOf(after)) && client.seen <= received.seen
    decreases |steps|
  {
    if steps != [] {
      assert steps[0] in steps;
      AdvanceKeeps(saved, sessionId, client, steps[0]);
      var (after, received) := Advance(saved, sessionId, client, steps[0]);
      SessionDelivers(after, sessionId, received, steps[1..]);
    }
  }

  // Order and completeness of a sweep.

  predicate Subsequence(part: seq<Bytes>, whole: seq<Bytes>)
    decreases |whole|
  {
    part == [] ||
    (whole != [] && ((part[0] == whole[0] && Subsequence(part[1..], whole[1..])) || Subsequence(part, whole[1..])))
  }

  lemma {:induction false} SubsequenceCons(first: Option<Bytes>, rest: seq<Bytes>, head: Bytes, tail: seq<Bytes>)
    requires Subsequence(rest, tail) && (first.Some? ==> first.value == head)
    ensures Subsequence((if first.Some? then [first.value] else []) + rest, [head] + tail)
  {
    var part, whole := (if first.Some? then [first.value] else []) + rest, [head] + tail;
    assert whole[1..] == tail && (first.Some? ==> part[1..] == rest) && (first.None? ==> part == rest);
  }

  /** Survivors keep the order they were visited in. */
  lemma {:induction false} SweepKeepsOrder(phase: Phase, monitors: seq<Monitor>, log: EventLog,
          observation: TerminalObservation, at: Moment)
    requires MonitorsInv(monitors, log.nextEventId) && LogInv(log) && at.nowMs >= 0
    requires Sweep(phase, monitors, log, observation, at).Ok?
    ensures Subsequence(Ids(Sweep(phase, monitors, log, observation, at).value.monitors), Ids(monitors))
  {
    if monitors != [] {
      assert monitors[0] in monitors;
      VisitKeeps(phase, monitors[0], log, observation, at);
      var visited := Visit(phase, monitors[0], log, observation, at).value;
      MonitorsInvTail(monitors, log.nextEventId, visited.log.nextEventId);
      SweepKeepsOrder(phase, monitors[1..], visited.log, observation, at);
      var rest := Sweep(phase, monitors[1..], visited.log, observation, at).value.monitors;
      var first := if visited.survivor.Some? then Some(visited.survivor.value.monitorId) else None;
      SubsequenceCons(first, Ids(rest), monitors[0].monitorId, Ids(monitors[1..]));
      IdsCons(visited.survivor, rest);
      IdsCons(Some(monitors[0]), monitors[1..]);
      assert [monitors[0]] + monitors[1..] == monitors;
    }
  }

  lemma {:induction false} IdsCons(first: Option<Monitor>, rest: seq<Monitor>)
    ensures Ids((if first.Some? then [first.value] else []) + rest)
            == (if first.Some? then [first.value.monitorId] else []) + Ids(rest)
  {
  }

  predicate NoneExpired(monitors: seq<Monitor>, nowMs: I64) {
    forall monitor | monitor in monitors :: !monitor.ExpiredAt(nowMs)
  }

  lemma TimerVisitRemovesExpired(monitor: Monitor, log: EventLog, at: Moment)
    requires MonitorInv(monitor, log.nextEventId) && LogInv(log) && at.nowMs >= 0
    requires VisitTimer(monitor, log, at).Ok?
    ensures var survivor := VisitTimer(monitor, log, at).value.survivor;
            survivor.Some? ==> !survivor.value.ExpiredAt(at.nowMs)
  {
    assert monitor.runtime.state == Degraded ==> !monitor.QuietDue(at.nowMs);
  }

  lemma {:induction false} TimerSweepRemovesExpired(monitors: seq<Monitor>, log: EventLog,
          observation: TerminalObservation, at: Moment)
    requires MonitorsInv(monitors, log.nextEventId) && LogInv(log) && at.nowMs >= 0
    requires Sweep(TimerPhase, monitors, log, observation, at).Ok?
    ensures NoneExpired(Sweep(TimerPhase, monitors, log, observation, at).value.monitors, at.nowMs)
  {
    if monitors != [] {
      assert monitors[0] in monitors;
      VisitKeeps(TimerPhase, monitors[0], log, observation, at);
      TimerVisitRemovesExpired(monitors[0], log, at);
      var visited := VisitTimer(monitors[0], log, at).value;
      MonitorsInvTail(monitors, log.nextEventId, visited.log.nextEventId);
      TimerSweepRemovesExpired(monitors[1..], visited.log, observation, at);
    }
  }

  lemma PollKeepsUnexpired(monitors: seq<Monitor>, log: EventLog, pollMatched: bool, at: Moment)
    requires MonitorsInv(monitors, log.nextEventId) && LogInv(log) && at.nowMs >= 0
    requires NoneExpired(monitors, at.nowMs) && PollOne(monitors, log, pollMatched, at).Ok?
    ensures NoneExpired(PollOne(monitors, log, pollMatched, at).value.monitors, at.nowMs)
  {
    PollingIndexInRange(monitors, at.nowMs);
    if FirstPollingDue(monitors, at.nowMs).Some? {
      var index := FirstPollingDue(monitors, at.nowMs).value;
      assert monitors[index] in monitors;
      ObserveThenApply(monitors[index], CheckRun, pollMatched, log, at);
      ObservedIsUnexpired(monitors[index], pollMatched, log, at);
      var (after, decision) := monitors[index].Observe(CheckRun, pollMatched, at.nowMs).value;
      var visited := ApplyDecision(after, log, decision, at).value;
      ReplaceKeeps(monitors, index, visited.survivor, log.nextEventId, visited.log.nextEventId);
    }
  }

  /** A check moves no lifetime deadline. */
  lemma ObservedIsUnexpired(monitor: Monitor, pollMatched: bool, log: EventLog, at: Moment)
    requires monitor.Observe(CheckRun, pollMatched, at.nowMs).Ok? && !monitor.ExpiredAt(at.nowMs)
    ensures var (after, decision) := monitor.Observe(CheckRun, pollMatched, at.nowMs).value;
            var applied := ApplyDecision(after, log, decision, at);
            applied.Ok? && applied.value.survivor.Some? ==> !applied.value.survivor.value.ExpiredAt(at.nowMs)
  {
  }

  /** After an accepted evaluation no monitor remains whose lifetime ended at or before now. */
  lemma ScansRemoveExpired(candidate: MonitorSet, observation: TerminalObservation, at: Moment)
    requires SetInv(candidate) && at.nowMs >= 0 && AfterScans(candidate, observation, at).Ok?
    ensures var after := AfterScans(candidate, observation, at).value.candidate;
            SetInv(after) && NoneExpired(after.monitors, at.nowMs)
  {
    AfterGapKeeps(candidate, observation);
    var gapped := AfterGap(candidate, observation).value;
    AfterSweepKeeps(OutputPhase, Evaluated(gapped.candidate.(lastOutputAtMs := at.nowMs), true), observation, at);
    var read := AfterOutput(gapped, observation, at).value;
    var advanced := read.(candidate := read.candidate.(cursorOffset := observation.cursorEnd));
    AfterSweepKeeps(TimerPhase, advanced, observation, at);
    TimerSweepRemovesExpired(advanced.candidate.monitors, advanced.candidate.log, observation, at);
  }

  lemma EvaluationRemovesExpired(candidate: MonitorSet, observation: TerminalObservation, pollMatched: bool, nowMs: I64)
    requires SetInv(candidate) && nowMs >= 0
    requires EvaluateAccepted(candidate, observation, pollMatched, nowMs).Ok?
    ensures NoneExpired(EvaluateAccepted(candidate, observation, pollMatched, nowMs).value.candidate.monitors, nowMs)
  {
    var at := MomentOf(observation, nowMs);
    ScansRemoveExpired(candidate, observation, at);
    var timed := AfterScans(candidate, observation, at).value;
    if at.lifecycle == Running {
      PollKeepsUnexpired(timed.candidate.monitors, timed.candidate.log, pollMatched, at);
    }
  }
}
