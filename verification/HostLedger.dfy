// The whole history of a session's events and monitors, kept beside the host: every match is reported exactly once.

module HostLedger {
  import opened Basics
  import opened Monitors
  import opened MonitorSets
  import opened SetInvariants
  import opened StoreTheorems
  import opened Announcements
  import opened Balance
  import opened Departures
  import opened Detection
  import H = Host
  import Glob
  import MatcherCorrect

  /** How a monitor came to be gone. */
  datatype Cause =
    | LifetimeOver
    | RemovedByClient
    | SessionEnded
    | OnItsOwn

  /** A departure: why, and how far into the stream the monitor had been listening. */
  datatype Departure = Departure(upTo: nat, cause: Cause)

  /**
   * One monitor since it was last installed: what for, how many events had been issued then, and whether it is gone.
   */
  datatype Account = Account(definition: Definition, since: nat, gone: Option<Departure>)

  /** Every event ever issued, in order, and the account of every monitor ever installed. */
  datatype Ledger = Ledger(issued: seq<MonitorEvent>, accounts: map<Bytes, Account>)

  const EMPTY_LEDGER := Ledger([], map[])

  function LogOf(saved: Option<MonitorSet>): EventLog {
    if saved.Some? then saved.value.log else EventLog(1, 0, 0, [])
  }

  function CursorOf(saved: Option<MonitorSet>): nat {
    if saved.Some? then saved.value.cursorOffset else 0
  }

  /** The events a step has added: the last of the log, as many as it issued identifiers. */
  function Added(before: Option<MonitorSet>, after: Option<MonitorSet>): seq<MonitorEvent> {
    Tail(LogOf(after).events, Max(LogOf(after).nextEventId - LogOf(before).nextEventId, 0))
  }

  // How accounts are opened and closed.

  function OpenAll(accounts: map<Bytes, Account>, monitors: seq<Monitor>, count: nat): map<Bytes, Account>
    decreases |monitors|
  {
    if monitors == [] then accounts
    else OpenAll(accounts[monitors[0].monitorId := Account(monitors[0].definition, count, None)], monitors[1..], count)
  }

  function ExpiredIds(monitors: seq<Monitor>, nowMs: I64): set<Bytes> {
    set monitor | monitor in monitors && monitor.ExpiredAt(nowMs) :: monitor.monitorId
  }

  /** Closes the accounts of those no longer present, the expired ones `early` and the others `late`. */
  function Close(accounts: map<Bytes, Account>, before: set<Bytes>, after: set<Bytes>, expired: set<Bytes>,
          early: Departure, late: Departure):
      map<Bytes, Account> {
    map id | id in accounts ::
      if id in before && id !in after then accounts[id].(gone := Some(if id in expired then early else late))
          else accounts[id]
  }

  /** The accounts after the worker's verdict on an observation. */
  function Judged(accounts: map<Bytes, Account>, saved: Option<MonitorSet>, next: Option<MonitorSet>,
          observation: TerminalObservation, nowMs: I64):
      map<Bytes, Account> {
    var ends := saved.Some? && SeesTheEnd(saved.value, observation.lifecycle);
    Close(accounts, IdSet(H.MonitorsOf(saved)), IdSet(H.MonitorsOf(next)), ExpiredIds(H.MonitorsOf(saved), nowMs),
          Departure(CursorOf(saved), LifetimeOver), Departure(CursorOf(next), if ends then SessionEnded else OnItsOwn))
  }

  /** The accounts after the end of the session. */
  function Ended(accounts: map<Bytes, Account>, saved: Option<MonitorSet>,
          next: Option<MonitorSet>): map<Bytes, Account> {
    var departure := Departure(CursorOf(saved), SessionEnded);
    Close(accounts, IdSet(H.MonitorsOf(saved)), IdSet(H.MonitorsOf(next)), {}, departure, departure)
  }

  /** The accounts after a client's operation on the monitor `id`. */
  function Operated(accounts: map<Bytes, Account>, operation: Operation, id: Bytes, cursor: nat,
          count: nat): map<Bytes, Account> {
    match operation
    case Add(definition) => accounts[id := Account(definition, count, None)]
    case Update(_, definition) => accounts[id := Account(definition, count, None)]
    case Remove(_) => if id in accounts
        then accounts[id := accounts[id].(gone := Some(Departure(cursor, RemovedByClient)))] else accounts
    case Pause(_) | Resume(_) => accounts
  }

  function AccountsAfter(session: H.Session, accounts: map<Bytes, Account>, step: H.Step, next: Option<MonitorSet>,
          count: nat): map<Bytes, Account>
    requires H.Enabled(session, step)
  {
    match step
    case Judge(_, nowMs) =>
      (match session.worker.observation
       case None => Ended(accounts, session.saved, next)
       case Some(observation) => Judged(accounts, session.saved, next, observation, nowMs))
    case EndClosed(_) => Ended(accounts, session.saved, next)
    case Install(_, _, _, _) => if session.saved.None? then OpenAll(accounts, H.MonitorsOf(next), count) else accounts
    case Operate(operation, prepared, at) =>
      (match MonitorSets.Operate(session.saved, session.sessionId, operation, prepared, at)
       case Ok((_, id)) => Operated(accounts, operation, id, CursorOf(session.saved), count)
       case Err(_) => accounts)
    case _ => accounts
  }

  function Record(session: H.Session, ledger: Ledger, step: H.Step): Ledger
    requires H.Enabled(session, step)
  {
    var next := H.Next(session, step).saved;
    var issued := ledger.issued + Added(session.saved, next);
    Ledger(issued, AccountsAfter(session, ledger.accounts, step, next, |issued|))
  }

  // The invariant.

  /** Whether the definition calls for a report of its match. */
  function Debt(definition: Definition): nat {
    if definition.notify == OnMatch then 1 else 0
  }

  /** How often the monitor's match was reported since it was last installed. */
  function Reported(ledger: Ledger, id: Bytes): nat
    requires id in ledger.accounts && ledger.accounts[id].since <= |ledger.issued|
  {
    Reports(ledger.issued[ledger.accounts[id].since..], id)
  }

  /**
   * The account of a present monitor: open, for its definition, and what was reported and is still owed add up; none
   * waits past its match.
   */
  predicate Square(ledger: Ledger, monitor: Monitor) {
    && monitor.monitorId in ledger.accounts
    && var account := ledger.accounts[monitor.monitorId];
       && account.definition == monitor.definition
       && account.gone.None?
       && account.since <= |ledger.issued|
       && Reported(ledger, monitor.monitorId) + Owes(monitor) == Debt(monitor.definition)
       && (monitor.definition.lifetime == UntilMatch ==> !monitor.runtime.conditionMatched)
  }

  /**
   * What a departed monitor that read output had been fed, and that its match was reported exactly if there was one.
   */
  ghost predicate FeedExplains(feed: H.Feed, stream: Bytes, definition: Definition, departure: Departure, reported: nat)
    requires definition.condition.ReadsOutput()
  {
    && feed.from <= H.HeardUpTo(feed, departure.upTo) <= departure.upTo <= |stream|
    && (!feed.everPaused ==> feed.text == stream[feed.from..H.HeardUpTo(feed, departure.upTo)])
    && reported == (if Found(definition.condition, feed.text) then Debt(definition) else 0)
    && (departure.cause.OnItsOwn? ==> definition.lifetime == UntilMatch && Found(definition.condition, feed.text))
  }

  /** The account of a monitor that is gone. */
  ghost predicate Closed(ledger: Ledger, feeds: map<Bytes, H.Feed>, stream: Bytes, id: Bytes)
    requires id in ledger.accounts
  {
    var account := ledger.accounts[id];
    && account.gone.Some?
    && account.since <= |ledger.issued|
    && Reported(ledger, id) <= 1
    && (account.definition.condition.ReadsOutput() ==>
          id in feeds && FeedExplains(feeds[id], stream, account.definition, account.gone.value, Reported(ledger, id)))
  }

  /** The history is complete, and the log holds the end of it. */
  predicate History(issued: seq<MonitorEvent>, log: EventLog) {
    && |issued| == log.nextEventId - 1
    && |log.events| <= |issued|
    && log.events == issued[|issued| - |log.events|..]
    && forall k: nat | k < |issued| :: HasId(issued[k], k + 1)
  }

  ghost predicate AccountRight(session: H.Session, ledger: Ledger, id: Bytes)
    requires id in ledger.accounts
  {
    id in IdSet(H.MonitorsOf(session.saved)) || Closed(ledger, session.feeds, session.stream, id)
  }

  ghost predicate LedgerInv(session: H.Session, ledger: Ledger) {
    && History(ledger.issued, LogOf(session.saved))
    && (session.saved.None? ==> ledger.accounts == map[])
    && (forall monitor | monitor in H.MonitorsOf(session.saved) :: Square(ledger, monitor))
    && (forall id | id in ledger.accounts :: AccountRight(session, ledger, id))
  }

  // Steps.

  lemma AppendedIsAdded(before: EventLog, after: EventLog, added: seq<MonitorEvent>)
    requires Appends(before, after, added) && |added| <= MAXIMUM_EVENTS
    ensures Tail(after.events, |added|) == added
  {
  }

  lemma HistoryGrows(issued: seq<MonitorEvent>, before: EventLog, after: EventLog, added: seq<MonitorEvent>)
    requires History(issued, before) && Appends(before, after, added)
    ensures History(issued + added, after)
  {
    var all := issued + added;
    forall k: nat | k < |all| ensures HasId(all[k], k + 1) {
      if k >= |issued| {
        var j := k - |issued|;
        assert HasId(added[j], before.nextEventId + j);
      } else {
        assert HasId(issued[k], k + 1);
      }
    }
    assert before.events + added == all[|all| - |before.events| - |added|..];
  }

  /** An account grows by what is reported of it. */
  lemma ReportedGrows(ledger: Ledger, next: Ledger, added: seq<MonitorEvent>, id: Bytes)
    requires id in ledger.accounts && id in next.accounts
             && next.accounts[id].since == ledger.accounts[id].since <= |ledger.issued|
    requires next.issued == ledger.issued + added
    ensures Reported(next, id) == Reported(ledger, id) + Reports(added, id)
  {
    var since := ledger.accounts[id].since;
    assert (ledger.issued + added)[since..] == ledger.issued[since..] + added;
    ReportsConcat(ledger.issued[since..], added, id);
  }

  /** A monitor already gone stays as it went. */
  lemma GoneStaysClosed(ledger: Ledger, next: Ledger, feeds: map<Bytes, H.Feed>, feedsAfter: map<Bytes, H.Feed>,
          stream: Bytes, longer: Bytes, added: seq<MonitorEvent>, id: Bytes)
    requires id in ledger.accounts && Closed(ledger, feeds, stream, id)
    requires id in next.accounts && next.accounts[id] == ledger.accounts[id]
    requires next.issued == ledger.issued + added && Reports(added, id) == 0
    requires id in feeds ==> id in feedsAfter && feedsAfter[id] == feeds[id]
    requires stream <= longer
    ensures Closed(next, feedsAfter, longer, id)
  {
    ReportedGrows(ledger, next, added, id);
    var account := ledger.accounts[id];
    if account.definition.condition.ReadsOutput() {
      var feed := feeds[id];
      var heard := H.HeardUpTo(feed, account.gone.value.upTo);
      assert longer[feed.from..heard] == stream[feed.from..heard];
    }
  }

  // Steps that leave the store alone.

  lemma NothingAdded(saved: Option<MonitorSet>, ledger: Ledger)
    ensures Added(saved, saved) == [] && ledger.issued + [] == ledger.issued
  {
  }

  lemma StoreUntouched(session: H.Session, next: H.Session, ledger: Ledger)
    requires LedgerInv(session, ledger) && next.saved == session.saved && next.feeds == session.feeds
             && session.stream <= next.stream
    ensures LedgerInv(next, Ledger(ledger.issued + Added(session.saved, next.saved), ledger.accounts))
  {
    NothingAdded(session.saved, ledger);
    forall id | id in ledger.accounts ensures AccountRight(next, ledger, id) {
      assert AccountRight(session, ledger, id);
      if id !in IdSet(H.MonitorsOf(session.saved)) {
        assert ledger.issued + [] == ledger.issued;
        GoneStaysClosed(ledger, ledger, session.feeds, next.feeds, session.stream, next.stream, [], id);
      }
    }
  }

  lemma NobodyCloses(accounts: map<Bytes, Account>, present: set<Bytes>, expired: set<Bytes>, early: Departure,
          late: Departure)
    ensures Close(accounts, present, present, expired, early, late) == accounts
  {
  }

  // Evaluations.

  /**
   * What the output makes of a waiting or matched monitor: it has its match now exactly if what it was fed contains
   * one.
   */
  lemma HearingDecides(candidate: MonitorSet, monitor: Monitor, text: Bytes, observation: TerminalObservation,
          pollMatched: bool, nowMs: I64)
    requires RightFor(monitor, text) && monitor.definition.condition.ReadsOutput()
    ensures var heard := if observation.rawGap || !monitor.Listens(nowMs) then text else text + observation.output;
            Found(monitor.definition.condition, heard) <==>
              monitor.runtime.conditionMatched || Finds(candidate, monitor, observation, pollMatched, nowMs)
  {
    var condition := monitor.definition.condition;
    var pattern, wildcard := condition.pattern, condition.OutputMatches?;
    if !observation.rawGap && monitor.Listens(nowMs) {
      if observation.output == [] {
        assert text + observation.output == text;
      } else if monitor.runtime.conditionMatched {
        MatcherCorrect.OccurrencePersists(pattern, wildcard, text, observation.output);
      } else {
        MatcherCorrect.FeedFinds(pattern, wildcard, monitor.runtime.matcherStates, text, observation.output);
      }
    }
  }

  /** The account of a present monitor after a balanced step that leaves it open. */
  lemma SurvivorIsSquare(ledger: Ledger, next: Ledger, before: seq<Monitor>, origin: Monitor, survivor: Monitor,
          added: seq<MonitorEvent>, found: set<Bytes>)
    requires DistinctIds(before) && origin in before && Square(ledger, origin)
    requires Survives(origin, survivor, origin.monitorId in found) && Told(before, added, found, origin.monitorId)
    requires !(origin.definition.lifetime == UntilMatch && origin.monitorId in found)
    requires next.issued == ledger.issued + added
    requires origin.monitorId in next.accounts && next.accounts[origin.monitorId] == ledger.accounts[origin.monitorId]
    ensures Square(next, survivor)
  {
    OwedByOne(before, origin);
    ReportedGrows(ledger, next, added, origin.monitorId);
  }

  /** What was reported of a monitor by the time it goes: its match, if it has one and was asked to report it. */
  lemma ReportedAtDeparture(ledger: Ledger, next: Ledger, before: seq<Monitor>, origin: Monitor,
          added: seq<MonitorEvent>, found: set<Bytes>)
    requires DistinctIds(before) && origin in before && Square(ledger, origin)
    requires Told(before, added, found, origin.monitorId) && next.issued == ledger.issued + added
    requires origin.monitorId in next.accounts
             && next.accounts[origin.monitorId].since == ledger.accounts[origin.monitorId].since
    ensures var matched := origin.runtime.conditionMatched || origin.monitorId in found;
            next.accounts[origin.monitorId].since <= |next.issued|
            && Reported(next, origin.monitorId) == if matched then Debt(origin.definition) else 0
  {
    OwedByOne(before, origin);
    ReportedGrows(ledger, next, added, origin.monitorId);
  }

  lemma ExpiredIdsOf(monitors: seq<Monitor>, nowMs: I64, monitor: Monitor)
    requires DistinctIds(monitors) && monitor in monitors
    ensures monitor.monitorId in ExpiredIds(monitors, nowMs) <==> monitor.ExpiredAt(nowMs)
  {
    if monitor.monitorId in ExpiredIds(monitors, nowMs) {
      var other :| other in monitors && other.ExpiredAt(nowMs) && other.monitorId == monitor.monitorId;
      OnlyOneHasTheId(monitors, other, monitor);
    }
  }

  /** The feed of a monitor that this evaluation removes explains its account. */
  lemma DepartingFeed(session: H.Session, ledger: Ledger, observation: TerminalObservation, pollMatched: bool,
          nowMs: I64, monitor: Monitor, departure: Departure, reported: nat)
    requires H.SessionInv(session) && session.saved.Some? && nowMs >= 0 && monitor in session.saved.value.monitors
    requires H.InFlight(observation, session.saved.value.cursorOffset, session.stream)
    requires monitor.definition.condition.ReadsOutput()
    requires var candidate := session.saved.value;
             && departure.upTo == (if monitor.ExpiredAt(nowMs) then candidate.cursorOffset else observation.cursorEnd)
             && (departure.cause.OnItsOwn? ==>
                   monitor.definition.lifetime == UntilMatch
                       && Finds(candidate, monitor, observation, pollMatched, nowMs))
             && reported
                 == (if monitor.runtime.conditionMatched || Finds(candidate, monitor, observation, pollMatched, nowMs)
                             then Debt(monitor.definition) else 0)
    ensures var feeds :=
            H.FeedAll(session.feeds, session.saved.value.monitors, session.saved.value.cursorOffset,
            observation, nowMs);
            monitor.monitorId in feeds
                && FeedExplains(feeds[monitor.monitorId], session.stream, monitor.definition, departure, reported)
  {
    var candidate := session.saved.value;
    assert H.Tracked(monitor, session.feeds, candidate.cursorOffset, session.stream);
    var feed := session.feeds[monitor.monitorId];
    H.FeedOfOne(session.feeds, candidate.monitors, candidate.cursorOffset, observation, nowMs, monitor);
    HearingDecides(candidate, monitor, feed.text, observation, pollMatched, nowMs);
    if !observation.rawGap && feed.lost.None? {
      H.StretchesJoin(session.stream, feed.from, candidate.cursorOffset, observation.cursorEnd);
    }
  }

  lemma DepartureIsClosed(session: H.Session, ledger: Ledger, next: Ledger, observation: TerminalObservation,
          pollMatched: bool, nowMs: I64, monitor: Monitor, added: seq<MonitorEvent>)
    requires H.SessionInv(session) && session.saved.Some? && nowMs >= 0 && monitor in session.saved.value.monitors
    requires H.InFlight(observation, session.saved.value.cursorOffset, session.stream)
    requires EvaluateAccepted(session.saved.value, observation, pollMatched, nowMs).Ok?
    requires Square(ledger, monitor) && next.issued == ledger.issued + added
    requires var candidate := session.saved.value;
             var stored := EvaluateAccepted(candidate, observation, pollMatched, nowMs).value.candidate;
             && monitor.monitorId !in IdSet(stored.monitors)
             && Told(candidate.monitors, added, FoundByEvaluation(candidate, observation, pollMatched, nowMs),
                 monitor.monitorId)
             && next.accounts == Judged(ledger.accounts, session.saved, Some(stored), observation, nowMs)
    ensures Closed(next,
            H.FeedAll(session.feeds, session.saved.value.monitors, session.saved.value.cursorOffset, observation,
            nowMs), session.stream,
            monitor.monitorId)
  {
    var candidate, id := session.saved.value, monitor.monitorId;
    var found := FoundByEvaluation(candidate, observation, pollMatched, nowMs);
    EvaluateAcceptedKeeps(candidate, observation, pollMatched, nowMs);
    FoundMeansFinds(candidate, observation, pollMatched, nowMs, monitor);
    DeparturesAreExact(candidate, observation, pollMatched, nowMs, monitor);
    ExpiredIdsOf(candidate.monitors, nowMs, monitor);
    assert id in IdSet(candidate.monitors);
    ReportedAtDeparture(ledger, next, candidate.monitors, monitor, added, found);
    if monitor.definition.condition.ReadsOutput() {
      DepartingFeed(session, ledger, observation, pollMatched, nowMs, monitor, next.accounts[id].gone.value,
          Reported(next, id));
    }
  }

  lemma EvaluatedKeepsLedger(session: H.Session, ledger: Ledger, observation: TerminalObservation, pollMatched: bool,
          nowMs: I64, stored: MonitorSet, next: H.Session)
    requires H.SessionInv(session) && session.saved.Some? && nowMs >= 0 && LedgerInv(session, ledger)
    requires H.InFlight(observation, session.saved.value.cursorOffset, session.stream)
    requires EvaluateAccepted(session.saved.value, observation, pollMatched, nowMs).Ok?
    requires stored == EvaluateAccepted(session.saved.value, observation, pollMatched, nowMs).value.candidate
    requires next.saved == Some(stored) && next.stream == session.stream
    requires next.feeds
             == H.FeedAll(session.feeds, session.saved.value.monitors, session.saved.value.cursorOffset,
             observation, nowMs)
    ensures LedgerInv(next, Ledger(ledger.issued + Added(session.saved, next.saved),
                                   Judged(ledger.accounts, session.saved, next.saved, observation, nowMs)))
  {
    var candidate := session.saved.value;
    EvaluateAcceptedKeeps(candidate, observation, pollMatched, nowMs);
    var added := EvaluationBalances(candidate, observation, pollMatched, nowMs);
    AppendedIsAdded(candidate.log, stored.log, added);
    HistoryGrows(ledger.issued, candidate.log, stored.log, added);
    var after := Ledger(ledger.issued + added, Judged(ledger.accounts, session.saved, next.saved, observation, nowMs));
    var found := FoundByEvaluation(candidate, observation, pollMatched, nowMs);
    forall survivor | survivor in stored.monitors ensures Square(after, survivor) {
      assert HasOrigin(candidate.monitors, survivor, found);
      var origin :| origin in candidate.monitors && Survives(origin, survivor, origin.monitorId in found);
      assert Square(ledger, origin) && Told(candidate.monitors, added, found, origin.monitorId);
      DeparturesAreExact(candidate, observation, pollMatched, nowMs, origin);
      FoundMeansFinds(candidate, observation, pollMatched, nowMs, origin);
      assert survivor.monitorId in IdSet(stored.monitors);
      SurvivorIsSquare(ledger, after, candidate.monitors, origin, survivor, added, found);
    }
    forall id | id in after.accounts ensures AccountRight(next, after, id) {
      if id !in IdSet(stored.monitors) {
        EvaluatedAccount(session, ledger, after, observation, pollMatched, nowMs, id, added);
      }
    }
  }

  lemma EvaluatedAccount(session: H.Session, ledger: Ledger, after: Ledger, observation: TerminalObservation,
          pollMatched: bool, nowMs: I64, id: Bytes, added: seq<MonitorEvent>)
    requires H.SessionInv(session) && session.saved.Some? && nowMs >= 0 && LedgerInv(session, ledger)
    requires H.InFlight(observation, session.saved.value.cursorOffset, session.stream)
    requires EvaluateAccepted(session.saved.value, observation, pollMatched, nowMs).Ok?
    requires id in ledger.accounts && after.issued == ledger.issued + added
    requires var candidate := session.saved.value;
             var stored := EvaluateAccepted(candidate, observation, pollMatched, nowMs).value.candidate;
             && id !in IdSet(stored.monitors)
             && Balanced(candidate.monitors, stored.monitors, added,
                 FoundByEvaluation(candidate, observation, pollMatched, nowMs))
             && after.accounts == Judged(ledger.accounts, session.saved, Some(stored), observation, nowMs)
    ensures id in after.accounts
            && Closed(after,
                H.FeedAll(session.feeds, session.saved.value.monitors, session.saved.value.cursorOffset,
                observation, nowMs),
            session.stream, id)
  {
    var candidate := session.saved.value;
    var found := FoundByEvaluation(candidate, observation, pollMatched, nowMs);
    assert Told(candidate.monitors, added, found, id);
    if id in IdSet(candidate.monitors) {
      var monitor :| monitor in candidate.monitors && monitor.monitorId == id;
      assert Square(ledger, monitor);
      DepartureIsClosed(session, ledger, after, observation, pollMatched, nowMs, monitor, added);
    } else {
      assert AccountRight(session, ledger, id);
      GoneStaysClosed(ledger, after, session.feeds,
          H.FeedAll(session.feeds, candidate.monitors, candidate.cursorOffset, observation, nowMs),
                      session.stream, session.stream, added, id);
    }
  }

  // The end of the session.

  lemma EndedIsClosed(session: H.Session, ledger: Ledger, next: Ledger, monitor: Monitor, added: seq<MonitorEvent>)
    requires H.SessionInv(session) && session.saved.Some? && monitor in session.saved.value.monitors
    requires Square(ledger, monitor) && next.issued == ledger.issued + added && Reports(added, monitor.monitorId) == 0
    requires monitor.monitorId in next.accounts
    requires next.accounts[monitor.monitorId]
          == ledger.accounts[monitor.monitorId].(gone :=
              Some(Departure(session.saved.value.cursorOffset, SessionEnded)))
          || next.accounts[monitor.monitorId]
          == ledger.accounts[monitor.monitorId].(gone :=
              Some(Departure(session.saved.value.cursorOffset, RemovedByClient)))
    ensures Closed(next, session.feeds, session.stream, monitor.monitorId)
  {
    ReportedGrows(ledger, next, added, monitor.monitorId);
    assert H.Tracked(monitor, session.feeds, session.saved.value.cursorOffset, session.stream);
  }

  lemma NoExitAfterwards(monitors: seq<Monitor>, at: Moment)
    requires at.lifecycle != Exited
    ensures FoundByEnd(monitors, None, None, at) == {}
  {
  }

  lemma EndKeepsLedger(session: H.Session, ledger: Ledger, lifecycle: Lifecycle, nowMs: I64, next: H.Session)
    requires H.SessionInv(session) && nowMs >= 0 && LedgerInv(session, ledger) && lifecycle != Exited
    requires EndSession(session.saved, session.sessionId, lifecycle, nowMs).Ok?
    requires next.saved
             == Overwrite(session.saved, EndSession(session.saved, session.sessionId, lifecycle, nowMs).value)
    requires next.feeds == session.feeds && next.stream == session.stream
    ensures LedgerInv(next,
            Ledger(ledger.issued + Added(session.saved, next.saved), Ended(ledger.accounts, session.saved, next.saved)))
  {
    LoadSucceeds(session.saved, session.sessionId);
    if session.saved.Some? && session.saved.value.monitors != [] {
      EndedKeepsLedger(session, ledger, lifecycle, nowMs, next);
    } else {
      StoreUntouched(session, next, ledger);
      NobodyCloses(ledger.accounts, IdSet(H.MonitorsOf(session.saved)), {},
                   Departure(CursorOf(session.saved), SessionEnded), Departure(CursorOf(session.saved), SessionEnded));
    }
  }

  lemma EndedKeepsLedger(session: H.Session, ledger: Ledger, lifecycle: Lifecycle, nowMs: I64, next: H.Session)
    requires H.SessionInv(session) && nowMs >= 0 && LedgerInv(session, ledger) && lifecycle != Exited
    requires session.saved.Some? && session.saved.value.monitors != []
    requires EndSession(session.saved, session.sessionId, lifecycle, nowMs).Ok?
    requires next.saved == EndSession(session.saved, session.sessionId, lifecycle, nowMs).value
    requires next.feeds == session.feeds && next.stream == session.stream
    ensures LedgerInv(next,
            Ledger(ledger.issued + Added(session.saved, next.saved), Ended(ledger.accounts, session.saved, next.saved)))
  {
    LoadSucceeds(session.saved, session.sessionId);
    var candidate := session.saved.value;
    var at := Moment(lifecycle, candidate.cursorOffset, nowMs);
    var added := EndAllBalances(candidate.monitors, candidate.log, None, None, at);
    NoExitAfterwards(candidate.monitors, at);
    AppendedIsAdded(candidate.log, next.saved.value.log, added);
    HistoryGrows(ledger.issued, candidate.log, next.saved.value.log, added);
    var after := Ledger(ledger.issued + added, Ended(ledger.accounts, session.saved, next.saved));
    assert next.saved.value.monitors == [] && IdSet(H.MonitorsOf(next.saved)) == {};
    forall id | id in after.accounts ensures AccountRight(next, after, id) {
      assert Told(candidate.monitors, added, {}, id);
      if id in IdSet(candidate.monitors) {
        var monitor :| monitor in candidate.monitors && monitor.monitorId == id;
        assert Square(ledger, monitor);
        EndedIsClosed(session, ledger, after, monitor, added);
      } else {
        assert AccountRight(session, ledger, id);
        GoneStaysClosed(ledger, after, session.feeds, next.feeds, session.stream, next.stream, added, id);
      }
    }
  }

  /** An end of the session that succeeds, or is refused and leaves the store alone. */
  lemma EndingKeepsLedger(session: H.Session, ledger: Ledger, lifecycle: Lifecycle, nowMs: I64, next: H.Session)
    requires H.SessionInv(session) && nowMs >= 0 && LedgerInv(session, ledger) && lifecycle != Exited
    requires next.saved == match EndSession(session.saved, session.sessionId, lifecycle, nowMs)
                           case Ok(written) => Overwrite(session.saved, written)
                           case Err(_) => session.saved
    requires next.feeds == session.feeds && next.stream == session.stream
    ensures LedgerInv(next,
            Ledger(ledger.issued + Added(session.saved, next.saved), Ended(ledger.accounts, session.saved, next.saved)))
  {
    if EndSession(session.saved, session.sessionId, lifecycle, nowMs).Ok? {
      EndKeepsLedger(session, ledger, lifecycle, nowMs, next);
    } else {
      StoreUntouched(session, next, ledger);
      NobodyCloses(ledger.accounts, IdSet(H.MonitorsOf(session.saved)), {},
                   Departure(CursorOf(session.saved), SessionEnded), Departure(CursorOf(session.saved), SessionEnded));
    }
  }

  lemma JudgeKeepsLedger(session: H.Session, ledger: Ledger, step: H.Step)
    requires H.SessionInv(session) && H.Enabled(session, step) && step.Judge? && LedgerInv(session, ledger)
    ensures LedgerInv(H.Next(session, step), Record(session, ledger, step))
  {
    var next := H.JudgeStep(session, step.pollMatched, step.nowMs);
    if session.worker.observation.None? {
      EndingKeepsLedger(session, ledger, Lost, step.nowMs, next);
      assert Record(session, ledger, step)
          == Ledger(ledger.issued + Added(session.saved, next.saved),
              Ended(ledger.accounts, session.saved, next.saved));
    } else {
      VerdictKeepsLedger(session, ledger, session.worker.observation.value, step.pollMatched, step.nowMs);
    }
  }

  lemma VerdictKeepsLedger(session: H.Session, ledger: Ledger, observation: TerminalObservation,
          pollMatched: bool, nowMs: I64)
    requires H.SessionInv(session) && session.worker == H.Saw(Some(observation)) && nowMs >= 0
             && LedgerInv(session, ledger)
    ensures var next := H.JudgeStep(session, pollMatched, nowMs);
            LedgerInv(next, Ledger(ledger.issued + Added(session.saved, next.saved),
                                   Judged(ledger.accounts, session.saved, next.saved, observation, nowMs)))
  {
    LoadSucceeds(session.saved, session.sessionId);
    var next, result := H.JudgeStep(session, pollMatched, nowMs),
        Evaluate(session.saved, session.sessionId, observation, pollMatched, nowMs);
    if result.Ok? && result.value.Some? {
      EvaluatedKeepsLedger(session, ledger, observation, pollMatched, nowMs, result.value.value, next);
    } else {
      StoreUntouched(session, next, ledger);
      var saved, ends := session.saved, session.saved.Some? && SeesTheEnd(session.saved.value, observation.lifecycle);
      NobodyCloses(ledger.accounts, IdSet(H.MonitorsOf(saved)), ExpiredIds(H.MonitorsOf(saved), nowMs),
                   Departure(CursorOf(saved), LifetimeOver),
                       Departure(CursorOf(saved), if ends then SessionEnded else OnItsOwn));
    }
  }

  // Client operations report nothing.

  ghost predicate Silent(added: seq<MonitorEvent>) {
    |added| <= 1 && forall id: Bytes :: Reports(added, id) == 0
  }

  lemma EmitSaysNothing(monitor: Monitor, log: EventLog, reason: EventReason, at: Moment)
    returns (added: seq<MonitorEvent>)
    requires LogInv(log) && Emit(monitor, log, reason, at).Ok? && reason != ConditionMatched
    ensures Appends(log, Emit(monitor, log, reason, at).value.1, added) && Silent(added)
  {
    EmitAppends(monitor, log, reason, at);
    added := [EventFor(monitor, log.nextEventId, reason, at)];
    forall id: Bytes ensures Reports(added, id) == 0 {
      NoReports(added, id);
    }
  }

  lemma UnchangedSaysNothing(log: EventLog) returns (added: seq<MonitorEvent>)
    requires LogInv(log)
    ensures Appends(log, log, added) && Silent(added)
  {
    AppendsNothing(log);
    added := [];
  }

  lemma ChangeSaysNothing(candidate: MonitorSet, operation: Operation, prepared: bool, at: Moment, after: MonitorSet)
    returns (added: seq<MonitorEvent>)
    requires SetInv(candidate) && !operation.Add? && ChangeMonitor(candidate, operation, prepared, at) == Ok(after)
    ensures Appends(candidate.log, after.log, added) && Silent(added)
  {
    FoundIndexInRange(candidate.monitors, operation.monitorId);
    var index := FindMonitor(candidate.monitors, operation.monitorId).value;
    var monitor, log := candidate.monitors[index], candidate.log;
    match operation {
      case Update(_, definition) =>
        var replacement := NewMonitor(monitor.monitorId, definition, at.nowMs).value;
        added := EmitSaysNothing(replacement.(runtime :=
            replacement.runtime.(generation := monitor.runtime.generation + 1)), log, Updated, at);
      case Pause(_) =>
        var (paused, did) := monitor.Pause();
        if did {
          added := EmitSaysNothing(paused.BumpGeneration().value, log, WasPaused, at);
        } else {
          added := UnchangedSaysNothing(log);
        }
      case Resume(_) =>
        var (resumed, did) := monitor.Resume(at.nowMs).value;
        if did {
          added := EmitSaysNothing(resumed.BumpGeneration().value, log, Resumed, at);
        } else {
          added := UnchangedSaysNothing(log);
        }
      case Remove(_) =>
        added := EmitSaysNothing(monitor, log, Removed, at);
    }
  }

  lemma OperationSaysNothing(saved: Option<MonitorSet>, sessionId: Bytes, operation: Operation, prepared: bool,
          at: Moment, after: MonitorSet, id: Bytes)
    returns (added: seq<MonitorEvent>)
    requires SavedInv(saved, sessionId) && at.nowMs >= 0
    requires MonitorSets.Operate(saved, sessionId, operation, prepared, at) == Ok((after, id))
    ensures Appends(LogOf(saved), after.log, added) && Silent(added)
  {
    OperateUnfolds(saved, sessionId, operation, prepared, at, after, id);
    var candidate := OperatedOn(saved, sessionId, at);
    if operation.Add? {
      added := UnchangedSaysNothing(candidate.log);
    } else {
      added := ChangeSaysNothing(candidate, operation, prepared, at, after);
    }
  }

  /** A monitor after an operation: untouched, installed anew, or woken or put to sleep with its history. */
  lemma OperatedIsSquare(ledger: Ledger, next: Ledger, added: seq<MonitorEvent>, operation: Operation, id: Bytes,
          before: seq<Monitor>, monitor: Monitor, cursor: nat)
    requires forall m | m in before :: Square(ledger, m)
    requires H.OperationMoved(operation, id, before, monitor) && Silent(added)
    requires operation.Remove? ==> monitor.monitorId != id
    requires next.issued == ledger.issued + added
    requires next.accounts == Operated(ledger.accounts, operation, id, cursor, |next.issued|)
    ensures Square(next, monitor)
  {
    if monitor.monitorId == id && (operation.Add? || operation.Update?) {
      assert next.issued[|next.issued|..] == [];
    } else {
      var origin := monitor;
      if monitor.monitorId == id && !operation.Remove? {
        origin :| origin in before && H.Woken(operation, origin, monitor);
      }
      assert Square(ledger, origin);
      ReportedGrows(ledger, next, added, monitor.monitorId);
    }
  }

  lemma OperatedAccount(session: H.Session, ledger: Ledger, next: Ledger, operation: Operation, id: Bytes,
          stored: MonitorSet, added: seq<MonitorEvent>, other: Bytes)
    requires H.SessionInv(session) && LedgerInv(session, ledger) && Silent(added)
             && next.issued == ledger.issued + added
    requires next.accounts == Operated(ledger.accounts, operation, id, CursorOf(session.saved), |next.issued|)
    requires IdSet(stored.monitors) == H.PresentAfter(operation, id, IdSet(H.MonitorsOf(session.saved)))
    requires !operation.Add? ==> id in IdSet(H.MonitorsOf(session.saved))
    requires other in next.accounts && other !in IdSet(stored.monitors)
    ensures Closed(next, H.FeedOperated(session.feeds, operation, id, stored.cursorOffset), session.stream, other)
  {
    var feeds := H.FeedOperated(session.feeds, operation, id, stored.cursorOffset);
    if other in IdSet(H.MonitorsOf(session.saved)) {
      var monitor :| monitor in H.MonitorsOf(session.saved) && monitor.monitorId == other;
      assert Square(ledger, monitor);
      EndedIsClosed(session, ledger, next, monitor, added);
    } else {
      assert other in ledger.accounts && AccountRight(session, ledger, other);
      GoneStaysClosed(ledger, next, session.feeds, feeds, session.stream, session.stream, added, other);
    }
  }

  lemma OperatedKeepsLedger(session: H.Session, ledger: Ledger, operation: Operation, prepared: bool, at: Moment,
          stored: MonitorSet, id: Bytes, next: H.Session)
    requires H.SessionInv(session) && at.nowMs >= 0 && LedgerInv(session, ledger)
    requires MonitorSets.Operate(session.saved, session.sessionId, operation, prepared, at) == Ok((stored, id))
    requires next
             == session.(saved := Some(stored),
             feeds := H.FeedOperated(session.feeds, operation, id, stored.cursorOffset))
    ensures var issued := ledger.issued + Added(session.saved, next.saved);
            LedgerInv(next, Ledger(issued, Operated(ledger.accounts, operation, id, CursorOf(session.saved), |issued|)))
  {
    var saved, sessionId := session.saved, session.sessionId;
    H.OperateMoves(saved, sessionId, operation, prepared, at, stored, id);
    H.OperatePresence(saved, sessionId, operation, prepared, at, stored, id);
    var added := OperationSaysNothing(saved, sessionId, operation, prepared, at, stored, id);
    AppendedIsAdded(LogOf(saved), stored.log, added);
    OperationKeepsAccounts(session, ledger, operation, id, stored, added, next);
  }

  lemma OperationKeepsAccounts(session: H.Session, ledger: Ledger, operation: Operation, id: Bytes, stored: MonitorSet,
                               added: seq<MonitorEvent>, next: H.Session)
    requires H.SessionInv(session) && LedgerInv(session, ledger) && Silent(added)
             && Appends(LogOf(session.saved), stored.log, added)
    requires IdSet(stored.monitors) == H.PresentAfter(operation, id, IdSet(H.MonitorsOf(session.saved)))
    requires !operation.Add? ==> id in IdSet(H.MonitorsOf(session.saved))
    requires forall monitor | monitor in stored.monitors ::
             H.OperationMoved(operation, id, H.MonitorsOf(session.saved), monitor)
    requires next.saved == Some(stored) && next.stream == session.stream
    requires next.feeds == H.FeedOperated(session.feeds, operation, id, stored.cursorOffset)
    ensures var issued := ledger.issued + added;
            LedgerInv(next, Ledger(issued, Operated(ledger.accounts, operation, id, CursorOf(session.saved), |issued|)))
  {
    HistoryGrows(ledger.issued, LogOf(session.saved), stored.log, added);
    var issued := ledger.issued + added;
    var after := Ledger(issued, Operated(ledger.accounts, operation, id, CursorOf(session.saved), |issued|));
    forall monitor | monitor in stored.monitors ensures Square(after, monitor) {
      assert monitor.monitorId in IdSet(stored.monitors);
      OperatedIsSquare(ledger, after, added, operation, id, H.MonitorsOf(session.saved), monitor,
          CursorOf(session.saved));
    }
    forall other | other in after.accounts ensures AccountRight(next, after, other) {
      if other !in IdSet(stored.monitors) {
        OperatedAccount(session, ledger, after, operation, id, stored, added, other);
      }
    }
  }

  lemma OperateKeepsLedger(session: H.Session, ledger: Ledger, step: H.Step)
    requires H.SessionInv(session) && H.Enabled(session, step) && step.Operate? && LedgerInv(session, ledger)
    ensures LedgerInv(H.Next(session, step), Record(session, ledger, step))
  {
    var next := H.OperateStep(session, step.operation, step.preparedOne, step.at);
    var result := MonitorSets.Operate(session.saved, session.sessionId, step.operation, step.preparedOne, step.at);
    if result.Ok? {
      OperatedKeepsLedger(session, ledger, step.operation, step.preparedOne, step.at, result.value.0,
          result.value.1, next);
    } else {
      StoreUntouched(session, next, ledger);
    }
  }

  // Installing the first monitors.

  lemma {:induction false} OpenAllAccounts(accounts: map<Bytes, Account>, monitors: seq<Monitor>, count: nat)
    requires DistinctIds(monitors)
    ensures OpenAll(accounts, monitors, count).Keys == accounts.Keys + IdSet(monitors)
    ensures forall id | id in accounts && id !in IdSet(monitors) ::
              OpenAll(accounts, monitors, count)[id] == accounts[id]
    ensures forall monitor | monitor in monitors ::
              OpenAll(accounts, monitors, count)[monitor.monitorId] == Account(monitor.definition, count, None)
    decreases |monitors|
  {
    if monitors != [] {
      var first, rest := monitors[0], monitors[1..];
      var begun := accounts[first.monitorId := Account(first.definition, count, None)];
      FirstIsApart(monitors);
      ConsIds(first, rest);
      assert [first] + rest == monitors;
      OpenAllAccounts(begun, rest, count);
    }
  }

  lemma InstallKeepsLedger(session: H.Session, ledger: Ledger, step: H.Step)
    requires H.SessionInv(session) && H.Enabled(session, step) && step.Install? && LedgerInv(session, ledger)
    ensures LedgerInv(H.Next(session, step), Record(session, ledger, step))
  {
    var next := H.InstallStep(session, step.definitions, step.prepared, step.atLifecycle, step.nowMs);
    InstallOutcome(session, step.definitions, step.prepared, step.atLifecycle, step.nowMs);
    if next == session {
      StoreUntouched(session, next, ledger);
    } else {
      InstalledKeepsLedger(session, ledger, next);
    }
  }

  /** An installation either changes nothing or fills an empty store with fresh monitors. */
  lemma InstallOutcome(session: H.Session, definitions: seq<Definition>, prepared: seq<bool>,
          lifecycle: Lifecycle, nowMs: I64)
    requires H.SessionInv(session) && |prepared| == |definitions| && nowMs >= 0
    ensures var next := H.InstallStep(session, definitions, prepared, lifecycle, nowMs);
            next == session ||
            (&& session.saved.None? && next.saved.Some? && next.stream == session.stream
             && SetInv(next.saved.value) && next.saved.value.log == EventLog(1, 0, 0, [])
             && forall m | m in next.saved.value.monitors :: !m.runtime.conditionMatched)
  {
    var result := InstallInitial(session.saved, session.sessionId, definitions, prepared, lifecycle, nowMs);
    InstallKeeps(session.saved, session.sessionId, definitions, prepared, lifecycle, nowMs);
    if result.Ok? && result.value.Some? {
      LoadSucceeds(session.saved, session.sessionId);
      H.InstalledAreFresh(definitions, 1, prepared, nowMs);
    }
  }

  lemma NothingBefore(issued: seq<MonitorEvent>, log: EventLog)
    requires History(issued, log) && log.nextEventId == 1
    ensures issued == []
  {
  }

  lemma NoNewEvents(before: Option<MonitorSet>, after: Option<MonitorSet>)
    requires LogOf(before).nextEventId == LogOf(after).nextEventId
    ensures Added(before, after) == []
  {
    EmptyTail(LogOf(after).events);
  }

  lemma EmptyTail(events: seq<MonitorEvent>)
    ensures Tail(events, 0) == []
  {
  }

  lemma InstalledKeepsLedger(session: H.Session, ledger: Ledger, next: H.Session)
    requires LedgerInv(session, ledger) && session.saved.None? && next.saved.Some?
    requires SetInv(next.saved.value) && next.saved.value.log == EventLog(1, 0, 0, [])
    requires forall m | m in next.saved.value.monitors :: !m.runtime.conditionMatched
    ensures var issued := ledger.issued + Added(session.saved, next.saved);
            LedgerInv(next, Ledger(issued, OpenAll(ledger.accounts, H.MonitorsOf(next.saved), |issued|)))
  {
    var nobody: seq<MonitorEvent> := [];
    NothingBefore(ledger.issued, LogOf(session.saved));
    NoNewEvents(session.saved, next.saved);
    assert ledger.issued + nobody == nobody && nobody[0..] == nobody;
    OpenAllAccounts(ledger.accounts, next.saved.value.monitors, 0);
  }

  // Reading the log.

  lemma InspectKeepsLedger(session: H.Session, ledger: Ledger, step: H.Step)
    requires H.SessionInv(session) && H.Enabled(session, step) && step.Inspect? && LedgerInv(session, ledger)
    ensures LedgerInv(H.Next(session, step), Record(session, ledger, step))
  {
    var next := H.InspectStep(session, step.after, step.acknowledge, step.maxEvents);
    InspectKeeps(session.saved, session.sessionId, step.after, step.acknowledge, step.maxEvents);
    var result := MonitorSets.Inspect(session.saved, session.sessionId, step.after, step.acknowledge, step.maxEvents);
    if result.Ok? && result.value.0.Some? {
      AcknowledgedKeepsLedger(session, ledger, step.acknowledge.value, next);
    } else {
      StoreUntouched(session, next, ledger);
    }
  }

  lemma AcknowledgedKeepsLedger(session: H.Session, ledger: Ledger, eventId: U64, next: H.Session)
    requires session.saved.Some? && SetInv(session.saved.value) && LedgerInv(session, ledger)
    requires next == session.(saved := Some(session.saved.value.(log := Acknowledge(session.saved.value.log, eventId))))
    ensures LedgerInv(next, Ledger(ledger.issued + Added(session.saved, next.saved), ledger.accounts))
  {
    HistoryAcknowledged(ledger.issued, session.saved.value.log, eventId);
    NoNewEvents(session.saved, next.saved);
    assert ledger.issued + [] == ledger.issued;
    AccountsStayRight(session, next, ledger);
  }

  lemma HistoryAcknowledged(issued: seq<MonitorEvent>, log: EventLog, eventId: U64)
    requires LogInv(log) && History(issued, log)
    ensures History(issued, Acknowledge(log, eventId)) && Acknowledge(log, eventId).nextEventId == log.nextEventId
  {
    AfterDropsPrefix(log.events, Max(log.gapThrough, log.acknowledgedThrough), eventId);
  }

  lemma AccountsStayRight(session: H.Session, next: H.Session, ledger: Ledger)
    requires forall id | id in ledger.accounts :: AccountRight(session, ledger, id)
    requires H.MonitorsOf(next.saved) == H.MonitorsOf(session.saved) && next.feeds == session.feeds
             && next.stream == session.stream
    ensures forall id | id in ledger.accounts :: AccountRight(next, ledger, id)
  {
    forall id | id in ledger.accounts ensures AccountRight(next, ledger, id) {
      assert AccountRight(session, ledger, id);
    }
  }

  lemma EndClosedKeepsLedger(session: H.Session, ledger: Ledger, step: H.Step)
    requires H.SessionInv(session) && H.Enabled(session, step) && step.EndClosed? && LedgerInv(session, ledger)
    ensures LedgerInv(H.Next(session, step), Record(session, ledger, step))
  {
    EndingKeepsLedger(session, ledger, MonitorSets.Closed, step.nowMs, H.Next(session, step));
  }

  /** Steps that touch neither the store nor the accounts. */
  lemma OtherStepKeepsLedger(session: H.Session, ledger: Ledger, step: H.Step)
    requires H.SessionInv(session) && H.Enabled(session, step) && LedgerInv(session, ledger)
    requires step.Write? || step.Stop? || step.Request? || step.Glance? || step.Read? || step.Close?
    ensures LedgerInv(H.Next(session, step), Record(session, ledger, step))
  {
    var next := H.Next(session, step);
    LeavesTheStore(session, step);
    StoreUntouched(session, next, ledger);
    assert Record(session, ledger, step) == Ledger(ledger.issued + Added(session.saved, next.saved), ledger.accounts);
  }

  lemma LeavesTheStore(session: H.Session, step: H.Step)
    requires H.Enabled(session, step)
    requires step.Write? || step.Stop? || step.Request? || step.Glance? || step.Read? || step.Close?
    ensures var next := H.Next(session, step);
            next.saved == session.saved && next.feeds == session.feeds && session.stream <= next.stream
  {
  }

  lemma StepKeepsLedger(session: H.Session, ledger: Ledger, step: H.Step)
    requires H.SessionInv(session) && H.Enabled(session, step) && LedgerInv(session, ledger)
    ensures LedgerInv(H.Next(session, step), Record(session, ledger, step))
  {
    match step {
      case Judge(_, _) => JudgeKeepsLedger(session, ledger, step);
      case Install(_, _, _, _) => InstallKeepsLedger(session, ledger, step);
      case Operate(_, _, _) => OperateKeepsLedger(session, ledger, step);
      case Inspect(_, _, _) => InspectKeepsLedger(session, ledger, step);
      case EndClosed(_) => EndClosedKeepsLedger(session, ledger, step);
      case _ => OtherStepKeepsLedger(session, ledger, step);
    }
  }

  // Every run.

  /** The ledger of a whole run. */
  ghost predicate IsRun(first: H.Session, ledger: Ledger, steps: seq<H.Step>, last: H.Session, final: Ledger)
    decreases |steps|
  {
    if steps == [] then first == last && ledger == final
    else H.Enabled(first, steps[0])
         && IsRun(H.Next(first, steps[0]), Record(first, ledger, steps[0]), steps[1..], last, final)
  }

  lemma {:induction false} RunKeepsLedger(first: H.Session, ledger: Ledger, steps: seq<H.Step>, last: H.Session,
          final: Ledger)
    requires H.SessionInv(first) && LedgerInv(first, ledger) && IsRun(first, ledger, steps, last, final)
    ensures LedgerInv(last, final) && H.SessionInv(last) && H.IsRun(first, steps, last)
    decreases |steps|
  {
    if steps != [] {
      H.NextKeeps(first, steps[0]);
      StepKeepsLedger(first, ledger, steps[0]);
      RunKeepsLedger(H.Next(first, steps[0]), Record(first, ledger, steps[0]), steps[1..], last, final);
    }
  }

  lemma BeginsSquare(sessionId: Bytes)
    requires ValidSessionId(sessionId)
    ensures H.SessionInv(H.Begin(sessionId)) && LedgerInv(H.Begin(sessionId), EMPTY_LEDGER)
  {
  }

  /** How far into the stream the monitor has been, or had been, listening. */
  function UpTo(session: H.Session, account: Account): nat {
    if account.gone.Some? then account.gone.value.upTo else CursorOf(session.saved)
  }

  /** The condition's pattern occurs in the stretch of the stream (at least one byte of it). */
  ghost predicate OccursBetween(condition: Condition, stream: Bytes, from: nat, upTo: nat)
    requires condition.ReadsOutput()
  {
    from < upTo <= |stream| && Glob.Occurs(condition.pattern, condition.OutputMatches?, stream[from..upTo])
  }

  lemma PresentIsOpen(session: H.Session, ledger: Ledger, id: Bytes)
    requires LedgerInv(session, ledger) && id in ledger.accounts
    ensures id in IdSet(H.MonitorsOf(session.saved)) <==> ledger.accounts[id].gone.None?
  {
    assert AccountRight(session, ledger, id);
    if id in IdSet(H.MonitorsOf(session.saved)) {
      var monitor :| monitor in H.MonitorsOf(session.saved) && monitor.monitorId == id;
      assert Square(ledger, monitor);
    }
  }

  lemma FoundInStretch(condition: Condition, stream: Bytes, from: nat, upTo: nat)
    requires condition.ReadsOutput() && from <= upTo <= |stream|
    ensures Found(condition, stream[from..upTo]) <==> OccursBetween(condition, stream, from, upTo)
  {
  }

  /** Present or gone, an output monitor's account: the reports it made, and what it was fed. */
  lemma AccountOf(session: H.Session, ledger: Ledger, id: Bytes)
    requires H.SessionInv(session) && LedgerInv(session, ledger)
    requires id in ledger.accounts && ledger.accounts[id].definition.condition.ReadsOutput()
    ensures ledger.accounts[id].since <= |ledger.issued| && id in session.feeds
    ensures var account, feed := ledger.accounts[id], session.feeds[id];
            var condition, upTo := account.definition.condition, UpTo(session, account);
            && feed.from <= H.HeardUpTo(feed, upTo) <= upTo <= |session.stream|
            && Reported(ledger, id) == (if Found(condition, feed.text) then Debt(account.definition) else 0)
            && (!feed.everPaused ==>
                  (Found(condition, feed.text)
                   <==> OccursBetween(condition, session.stream, feed.from, H.HeardUpTo(feed, upTo))))
            && (account.definition.lifetime == UntilMatch ==>
                  (account.gone.None? ==> !Found(condition, feed.text))
                  && (account.gone.Some? && account.gone.value.cause.OnItsOwn? ==> Found(condition, feed.text)))
  {
    PresentIsOpen(session, ledger, id);
    assert AccountRight(session, ledger, id);
    if ledger.accounts[id].gone.None? {
      var monitor :| monitor in H.MonitorsOf(session.saved) && monitor.monitorId == id;
      assert Square(ledger, monitor)
             && H.Tracked(monitor, session.feeds, session.saved.value.cursorOffset, session.stream);
    }
    var account := ledger.accounts[id];
    var feed := session.feeds[id];
    FoundInStretch(account.definition.condition, session.stream, feed.from, H.HeardUpTo(feed, UpTo(session, account)));
  }

  /**
   * Exactly once, under every interleaving, for every output monitor ever installed, present or gone and however it
   * went: of the events issued since it was installed, as many report its match as its pattern demands. If it was
   * never paused while it could hear, that is whether the pattern occurs in the stream from where it began to where it
   * stopped, or to its first loss.
   */
  lemma {:induction false} MatchIsReportedExactlyOnce(sessionId: Bytes, steps: seq<H.Step>, last: H.Session,
          ledger: Ledger, id: Bytes)
    requires ValidSessionId(sessionId) && IsRun(H.Begin(sessionId), EMPTY_LEDGER, steps, last, ledger)
    requires id in ledger.accounts
    requires ledger.accounts[id].definition.condition.ReadsOutput() && ledger.accounts[id].definition.notify == OnMatch
    ensures ledger.accounts[id].since <= |ledger.issued| && id in last.feeds
    ensures var account, feed := ledger.accounts[id], last.feeds[id];
            var condition, upTo := account.definition.condition, UpTo(last, account);
            && Reported(ledger, id) == (if Found(condition, feed.text) then 1 else 0)
            && (!feed.everPaused ==>
                  Reported(ledger, id)
                  == if OccursBetween(condition, last.stream, feed.from, H.HeardUpTo(feed, upTo)) then 1 else 0)
  {
    BeginsSquare(sessionId);
    RunKeepsLedger(H.Begin(sessionId), EMPTY_LEDGER, steps, last, ledger);
    AccountOf(last, ledger, id);
  }

  /**
   * Under every interleaving, an output monitor installed until its match, never paused while it could hear, and
   * neither expired, removed by a client nor ended with its session, is gone if and only if its pattern occurs in the
   * stream from where it began to where it stopped, or to its first loss; and if it was to report its match, it has
   * one report then, and none before.
   */
  lemma {:induction false} GoneExactlyOnItsMatch(sessionId: Bytes, steps: seq<H.Step>, last: H.Session,
          ledger: Ledger, id: Bytes)
    requires ValidSessionId(sessionId) && IsRun(H.Begin(sessionId), EMPTY_LEDGER, steps, last, ledger)
    requires id in ledger.accounts && ledger.accounts[id].definition.condition.ReadsOutput()
    requires ledger.accounts[id].definition.lifetime == UntilMatch
    requires ledger.accounts[id].gone.None? || ledger.accounts[id].gone.value.cause.OnItsOwn?
    requires id in last.feeds ==> !last.feeds[id].everPaused
    ensures ledger.accounts[id].since <= |ledger.issued| && id in last.feeds
    ensures var account, feed := ledger.accounts[id], last.feeds[id];
            var gone := id !in IdSet(H.MonitorsOf(last.saved));
            && (gone <==> OccursBetween(account.definition.condition, last.stream, feed.from,
                   H.HeardUpTo(feed, UpTo(last, account))))
            && Reported(ledger, id) == if gone then Debt(account.definition) else 0
  {
    BeginsSquare(sessionId);
    RunKeepsLedger(H.Begin(sessionId), EMPTY_LEDGER, steps, last, ledger);
    AccountOf(last, ledger, id);
    PresentIsOpen(last, ledger, id);
  }

  lemma AtMostOneReport(session: H.Session, ledger: Ledger, id: Bytes)
    requires LedgerInv(session, ledger) && id in ledger.accounts
    ensures ledger.accounts[id].since <= |ledger.issued| && Reported(ledger, id) <= 1
  {
    assert AccountRight(session, ledger, id);
    if id in IdSet(H.MonitorsOf(session.saved)) {
      var monitor :| monitor in H.MonitorsOf(session.saved) && monitor.monitorId == id;
      assert Square(ledger, monitor);
    }
  }

  /**
   * Of any kind of monitor, present or gone, a match is never reported twice, and the log is the end of a history
   * numbered from one.
   */
  lemma {:induction false} NoMatchIsReportedTwice(sessionId: Bytes, steps: seq<H.Step>, last: H.Session, ledger: Ledger)
    requires ValidSessionId(sessionId) && IsRun(H.Begin(sessionId), EMPTY_LEDGER, steps, last, ledger)
    ensures forall id | id in ledger.accounts ::
              ledger.accounts[id].since <= |ledger.issued| && Reported(ledger, id) <= 1
    ensures History(ledger.issued, LogOf(last.saved))
  {
    BeginsSquare(sessionId);
    RunKeepsLedger(H.Begin(sessionId), EMPTY_LEDGER, steps, last, ledger);
    forall id | id in ledger.accounts ensures ledger.accounts[id].since <= |ledger.issued|
        && Reported(ledger, id) <= 1 {
      AtMostOneReport(last, ledger, id);
    }
  }

  // After a loss.

  /** The step installs the monitor `id` anew: a client replaces its definition. */
  predicate Renews(session: H.Session, step: H.Step, id: Bytes) {
    && step.Operate?
    && (step.operation.Add? || step.operation.Update?)
    && match MonitorSets.Operate(session.saved, session.sessionId, step.operation, step.preparedOne, step.at)
       case Ok((_, operated)) => operated == id
       case Err(_) => false
  }

  /** No step of the run does. */
  ghost predicate NeverRenewed(first: H.Session, steps: seq<H.Step>, id: Bytes)
    decreases |steps|
  {
    steps != [] && H.Enabled(first, steps[0]) ==>
      !Renews(first, steps[0], id) && NeverRenewed(H.Next(first, steps[0]), steps[1..], id)
  }

  /** Whatever else happens, an account goes on from where it began, for the definition it was opened for. */
  lemma AccountGoesOn(session: H.Session, ledger: Ledger, step: H.Step, id: Bytes)
    requires H.SessionInv(session) && H.Enabled(session, step) && LedgerInv(session, ledger)
    requires id in ledger.accounts && !Renews(session, step, id)
    ensures var next := Record(session, ledger, step);
            id in next.accounts && GoesOn(ledger.accounts[id], next.accounts[id])
  {
    var next := H.Next(session, step).saved;
    var count := |ledger.issued| + |Added(session.saved, next)|;
    if step.Operate? {
      OperatedAccountGoesOn(session, ledger.accounts, step, count, id);
    } else {
      assert session.saved.Some?;
      OtherAccountGoesOn(session, ledger.accounts, step, next, count, id);
    }
  }

  predicate GoesOn(before: Account, after: Account) {
    after.definition == before.definition && after.since == before.since
  }

  lemma OperatedAccountGoesOn(session: H.Session, accounts: map<Bytes, Account>, step: H.Step, count: nat, id: Bytes)
    requires H.Enabled(session, step) && step.Operate? && id in accounts && !Renews(session, step, id)
    ensures var after := AccountsAfter(session, accounts, step, H.Next(session, step).saved, count);
            id in after && GoesOn(accounts[id], after[id])
  {
  }

  lemma OtherAccountGoesOn(session: H.Session, accounts: map<Bytes, Account>, step: H.Step, next: Option<MonitorSet>,
          count: nat, id: Bytes)
    requires H.Enabled(session, step) && !step.Operate? && session.saved.Some? && id in accounts
    ensures var after := AccountsAfter(session, accounts, step, next, count);
            id in after && GoesOn(accounts[id], after[id])
  {
  }

  /** A monitor that lost output is fed no more, and what befalls it later is no part of its history. */
  lemma FeedStops(session: H.Session, step: H.Step, id: Bytes)
    requires H.SessionInv(session) && H.Enabled(session, step) && session.saved.Some?
    requires id in session.feeds && session.feeds[id].lost.Some? && !Renews(session, step, id)
    requires forall monitor | monitor in session.saved.value.monitors && monitor.monitorId == id ::
               monitor.definition.condition.ReadsOutput()
    ensures id in H.Next(session, step).feeds && H.Next(session, step).feeds[id] == session.feeds[id]
  {
    if step.Judge? {
      forall monitor | monitor in session.saved.value.monitors && monitor.monitorId == id
        ensures !monitor.Listens(step.nowMs)
      {
        assert H.Tracked(monitor, session.feeds, session.saved.value.cursorOffset, session.stream);
      }
    }
    if step.Install? {
      LoadSucceeds(session.saved, session.sessionId);
    }
  }

  /** So no step but a renewal adds a report of its match. */
  lemma LostStepIsSilent(session: H.Session, ledger: Ledger, step: H.Step, id: Bytes)
    requires H.SessionInv(session) && H.Enabled(session, step) && LedgerInv(session, ledger)
    requires id in ledger.accounts && ledger.accounts[id].definition.condition.ReadsOutput()
    requires id in session.feeds && session.feeds[id].lost.Some? && !Renews(session, step, id)
    ensures var next, after := H.Next(session, step), Record(session, ledger, step);
            && H.SessionInv(next) && LedgerInv(next, after)
            && id in after.accounts && GoesOn(ledger.accounts[id], after.accounts[id])
            && id in next.feeds && next.feeds[id] == session.feeds[id]
    ensures Reports(Added(session.saved, H.Next(session, step).saved), id) == 0
  {
    var next, after := H.Next(session, step), Record(session, ledger, step);
    AccountGoesOn(session, ledger, step, id);
    AccountOf(session, ledger, id);
    forall monitor | monitor in H.MonitorsOf(session.saved) && monitor.monitorId == id
      ensures monitor.definition.condition.ReadsOutput()
    {
      assert Square(ledger, monitor);
    }
    FeedStops(session, step, id);
    H.NextKeeps(session, step);
    StepKeepsLedger(session, ledger, step);
    AccountOf(next, after, id);
    ReportedGrows(ledger, after, Added(session.saved, next.saved), id);
  }

  lemma {:induction false} LostRunIsSilent(first: H.Session, ledger: Ledger, steps: seq<H.Step>, last: H.Session,
          final: Ledger, id: Bytes)
    returns (added: seq<MonitorEvent>)
    requires H.SessionInv(first) && LedgerInv(first, ledger) && IsRun(first, ledger, steps, last, final)
    requires id in ledger.accounts && ledger.accounts[id].definition.condition.ReadsOutput()
    requires id in first.feeds && first.feeds[id].lost.Some? && NeverRenewed(first, steps, id)
    ensures final.issued == ledger.issued + added && Reports(added, id) == 0
    ensures id in last.feeds && last.feeds[id] == first.feeds[id]
    ensures id in final.accounts && final.accounts[id].definition == ledger.accounts[id].definition
    decreases |steps|
  {
    if steps == [] {
      added := [];
      assert ledger.issued + [] == ledger.issued;
    } else {
      var next, after := H.Next(first, steps[0]), Record(first, ledger, steps[0]);
      LostStepIsSilent(first, ledger, steps[0], id);
      var later := LostRunIsSilent(next, after, steps[1..], last, final, id);
      added := SilenceJoins(ledger.issued, Added(first.saved, next.saved), later, id);
    }
  }

  lemma SilenceJoins(issued: seq<MonitorEvent>, now: seq<MonitorEvent>, later: seq<MonitorEvent>, id: Bytes)
    returns (added: seq<MonitorEvent>)
    requires Reports(now, id) == 0 && Reports(later, id) == 0
    ensures (issued + now) + later == issued + added && Reports(added, id) == 0
  {
    added := now + later;
    ReportsConcat(now, later, id);
    Regroup(issued, now, later);
  }

  /**
   * Under every interleaving, an output monitor that has lost output reports no match from then on, until a client
   * installs it anew: while it is there it is degraded, it has heard nothing since its loss, and of all events issued
   * later none reports its match, whether it was ever paused or not.
   */
  lemma LossSilencesForGood(sessionId: Bytes, before: seq<H.Step>, middle: H.Session, soFar: Ledger,
          after: seq<H.Step>, last: H.Session, ledger: Ledger, id: Bytes)
    returns (added: seq<MonitorEvent>)
    requires ValidSessionId(sessionId) && IsRun(H.Begin(sessionId), EMPTY_LEDGER, before, middle, soFar)
    requires id in soFar.accounts && soFar.accounts[id].definition.condition.ReadsOutput()
    requires id in middle.feeds && middle.feeds[id].lost.Some?
    requires IsRun(middle, soFar, after, last, ledger) && NeverRenewed(middle, after, id)
    ensures ledger.issued == soFar.issued + added && Reports(added, id) == 0
    ensures id in last.feeds && last.feeds[id] == middle.feeds[id]
    ensures forall monitor | monitor in H.MonitorsOf(last.saved) && monitor.monitorId == id ::
              monitor.runtime.state == Degraded
  {
    BeginsSquare(sessionId);
    RunKeepsLedger(H.Begin(sessionId), EMPTY_LEDGER, before, middle, soFar);
    added := LostRunIsSilent(middle, soFar, after, last, ledger, id);
    RunKeepsLedger(middle, soFar, after, last, ledger);
    forall monitor | monitor in H.MonitorsOf(last.saved) && monitor.monitorId == id
      ensures monitor.runtime.state == Degraded
    {
      assert Square(ledger, monitor);
      assert H.Tracked(monitor, last.feeds, last.saved.value.cursorOffset, last.stream);
    }
  }
}
