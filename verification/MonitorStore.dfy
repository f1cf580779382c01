// The store itself: a candidate copy is loaded, mutated in place and saved back as a whole.

module MonitorStores {
  import opened Basics
  import opened Schedule
  import opened Monitors
  import opened MonitorSets
  import M = Matcher

  /** The sweep of a list whose first monitors are already visited. */
  function Prepend(visited: seq<Monitor>, changed: bool, rest: Result<Swept, Damage>): Result<Swept, Damage> {
    var swept :- rest;
    Ok(Swept(visited + swept.monitors, swept.log, changed || swept.changed))
  }

  lemma PrependNothing(swept: Result<Swept, Damage>)
    ensures Prepend([], false, swept) == swept
  {
    if swept.Ok? {
      assert [] + swept.value.monitors == swept.value.monitors;
    }
  }

  lemma {:induction false} SweepUnfolds(phase: Phase, monitors: seq<Monitor>, index: nat, log: EventLog, changed: bool,
                     observation: TerminalObservation, at: Moment, visited: Visited)
    requires index < |monitors| && Visit(phase, monitors[index], log, observation, at) == Ok(visited)
    ensures var next := Replace(monitors, index, visited.survivor);
            var after := if visited.survivor.Some? then index + 1 else index;
            && after <= |next| && |next| - after == |monitors| - index - 1
            && Prepend(monitors[..index], changed, Sweep(phase, monitors[index..], log, observation, at))
               == Prepend(next[..after], changed || visited.changed,
                   Sweep(phase, next[after..], visited.log, observation, at))
  {
    ReplaceSplits(monitors, index, visited.survivor);
    assert monitors[index..][1..] == monitors[index + 1..];
    PrependOne(monitors[..index], if visited.survivor.Some? then [visited.survivor.value]
        else [], changed, visited.changed,
               Sweep(phase, monitors[index + 1..], visited.log, observation, at));
  }

  lemma ReplaceSplits(monitors: seq<Monitor>, index: nat, survivor: Option<Monitor>)
    requires index < |monitors|
    ensures var next := Replace(monitors, index, survivor);
            var kept := if survivor.Some? then [survivor.value] else [];
            next[index + |kept|..] == monitors[index + 1..] && next[..index + |kept|] == monitors[..index] + kept
  {
  }

  lemma PrependOne(visited: seq<Monitor>, kept: seq<Monitor>, changed: bool, now: bool, rest: Result<Swept, Damage>)
    ensures Prepend(visited, changed, Prepend(kept, now, rest)) == Prepend(visited + kept, changed || now, rest)
  {
    if rest.Ok? {
      assert visited + (kept + rest.value.monitors) == visited + kept + rest.value.monitors;
    }
  }

  /** The degrading of a list whose first monitors are already done. */
  function PrependDegraded(done: seq<Monitor>, changed: bool, rest: Result<(seq<Monitor>, bool),
          Damage>): Result<(seq<Monitor>, bool), Damage> {
    var (monitors, any) :- rest;
    Ok((done + monitors, changed || any))
  }

  lemma PrependNoneDegraded(rest: Result<(seq<Monitor>, bool), Damage>)
    ensures PrependDegraded([], false, rest) == rest
  {
    if rest.Ok? {
      assert [] + rest.value.0 == rest.value.0;
    }
  }

  lemma DegradeUnfolds(done: seq<Monitor>, changed: bool, monitors: seq<Monitor>)
    requires monitors != []
    ensures var first := monitors[0].DegradeForRawGap();
            if first.Err? then
              DegradeAll(monitors) == Err(BadMonitor(first.error))
            else
              PrependDegraded(done, changed, DegradeAll(monitors))
              == PrependDegraded(done + [first.value.0], first.value.1 || changed, DegradeAll(monitors[1..]))
  {
    var first, rest := monitors[0].DegradeForRawGap(), DegradeAll(monitors[1..]);
    if first.Ok? && rest.Ok? {
      assert done + ([first.value.0] + rest.value.0) == done + [first.value.0] + rest.value.0;
    }
  }

  lemma ReplaceTwice(monitors: seq<Monitor>, index: nat, first: Monitor, survivor: Option<Monitor>)
    requires index < |monitors|
    ensures Replace(monitors[index := first], index, survivor) == Replace(monitors, index, survivor)
  {
  }

  /** What a listening monitor decides about output: the part of a visit that leaves the candidate alone. */
  method DecideOutput(cell: MonitorCell, observation: TerminalObservation, at: Moment, ghost log: EventLog)
    returns (decided: Result<Decision, Damage>)
    requires !cell.Value().Inert()
    requires cell.definition.condition.ReadsOutput() || cell.definition.condition.ScreenMatches?
    modifies cell`runtime
    ensures VisitOutput(old(cell.Value()), log, observation, at)
            == match decided
               case Err(damage) => Err(damage)
               case Ok(decision) => ApplyDecision(cell.Value(), log, decision, at)
  {
    var step: Result<Decision, MonitorError>;
    if cell.definition.condition.ScreenMatches? {
      step := cell.Observe(ScreenSeen,
          ScreenMatched(cell.definition.condition.pattern, observation.screenText), at.nowMs);
    } else {
      var fed := cell.FeedOutput(observation.output);
      if fed.Err? {
        return Err(BadMonitor(fed.error));
      }
      step := cell.Observe(OutputSeen, fed.value, at.nowMs);
    }
    decided := step.MapError(error => BadMonitor(error));
  }

  class Candidate {
    const schemaVersion: nat
    const sessionId: Bytes
    var nextMonitorId: U64
    var nextEventId: U64
    var eventGapThrough: U64
    var acknowledgedThrough: U64
    var cursorOffset: U64
    var lastOutputAtMs: I64
    var lastLifecycle: Lifecycle
    var monitors: seq<Monitor>
    var events: seq<MonitorEvent>

    function Log(): EventLog
      reads this
    {
      EventLog(nextEventId, eventGapThrough, acknowledgedThrough, events)
    }

    function View(): MonitorSet
      reads this
    {
      MonitorSet(schemaVersion, sessionId, nextMonitorId, cursorOffset, lastOutputAtMs, lastLifecycle, monitors, Log())
    }

    constructor (view: MonitorSet)
      ensures View() == view
    {
      schemaVersion := view.schemaVersion;
      sessionId := view.sessionId;
      nextMonitorId := view.nextMonitorId;
      nextEventId := view.log.nextEventId;
      eventGapThrough := view.log.gapThrough;
      acknowledgedThrough := view.log.acknowledgedThrough;
      cursorOffset := view.cursorOffset;
      lastOutputAtMs := view.lastOutputAtMs;
      lastLifecycle := view.lastLifecycle;
      monitors := view.monitors;
      events := view.log.events;
    }

    method CheckValid(expectedSessionId: Bytes) returns (damage: Option<Damage>)
      ensures damage == Validate(View(), expectedSessionId)
    {
      if || schemaVersion != SCHEMA_VERSION
         || sessionId != expectedSessionId
         || !ValidSessionId(sessionId)
         || nextMonitorId == 0
         || nextEventId == 0
         || lastOutputAtMs < 0
         || acknowledgedThrough >= nextEventId
         || eventGapThrough >= nextEventId
         || |monitors| > MAXIMUM_MONITORS
         || |events| > MAXIMUM_EVENTS
      {
        return Some(BadMetadata);
      }
      for index := 0 to |monitors|
        invariant FirstBadMonitor(monitors) == FirstBadMonitor(monitors[index..])
      {
        var bad := monitors[index].Validate();
        if bad.Some? {
          return Some(BadMonitor(bad.value));
        }
        assert monitors[index..][1..] == monitors[index + 1..];
      }
      var previous: int := Max(eventGapThrough, acknowledgedThrough);
      for index := 0 to |events|
        invariant EventsAscend(events, Max(eventGapThrough, acknowledgedThrough), nextEventId)
             <==> EventsAscend(events[index..], previous, nextEventId)
      {
        var event := events[index];
        if event.eventId <= previous || event.eventId >= nextEventId || !WellFormedEvent(event) {
          return Some(BadEventSequence);
        }
        previous := event.eventId;
        assert events[index..][1..] == events[index + 1..];
      }
      return None;
    }

    method PushEvent(monitorIndex: nat, reason: EventReason, at: Moment) returns (result: Result<U64, Damage>)
      modifies this`nextEventId, this`eventGapThrough, this`monitors, this`events
      ensures monitorIndex >= |old(monitors)|
              ==> result == Err(if old(nextEventId) == MAX_U64 then EventIdsExhausted else IndexInvalid)
      ensures monitorIndex < |old(monitors)| ==>
                match Emit(old(monitors)[monitorIndex], old(Log()), reason, at)
                case Err(damage) => result == Err(damage)
                case Ok((noted, log)) =>
                  result == Ok(old(nextEventId)) && View()
                      == old(View()).(monitors := old(monitors)[monitorIndex := noted], log := log)
    {
      var eventId := nextEventId;
      if nextEventId == MAX_U64 {
        return Err(EventIdsExhausted);
      }
      nextEventId := nextEventId + 1;
      if monitorIndex >= |monitors| {
        return Err(IndexInvalid);
      }
      var cell := new MonitorCell(monitors[monitorIndex]);
      var refused := cell.NoteNotification(eventId, reason);
      if refused.Some? {
        return Err(BadMonitor(refused.value));
      }
      monitors := monitors[monitorIndex := cell.Value()];
      events := events
          + [MonitorEvent(eventId, monitors[monitorIndex].monitorId, reason, at.lifecycle, 1,
          at.cursorOffset, at.nowMs)];
      assert Log()
             == old(Log()).(nextEventId := nextEventId, events := old(events)
             + [EventFor(old(monitors)[monitorIndex], eventId, reason, at)]);
      EvictOldest();
      return Ok(eventId);
    }

    method EvictOldest()
      modifies this`eventGapThrough, this`events
      ensures Log() == Trim(old(Log()))
    {
      while |events| > MAXIMUM_EVENTS
        invariant Log() == old(Log()).(gapThrough := eventGapThrough, events := events)
        invariant Trim(Log()) == Trim(old(Log()))
        decreases |events|
      {
        var removed := events[0];
        events := events[1..];
        eventGapThrough := Max(eventGapThrough, removed.eventId);
      }
    }

    method Decide(monitorIndex: nat, decision: Decision, at: Moment) returns (result: Result<bool, Damage>)
      requires monitorIndex < |monitors|
      modifies this`nextEventId, this`eventGapThrough, this`monitors, this`events
      ensures match ApplyDecision(old(monitors[monitorIndex]), old(Log()), decision, at)
              case Err(damage) => result == Err(damage)
              case Ok(visited) =>
                && result == Ok(visited.survivor.None?)
                && View()
                    == old(View()).(monitors := Replace(old(monitors), monitorIndex, visited.survivor),
                    log := visited.log)
    {
      if decision.notify.Some? {
        var pushed := PushEvent(monitorIndex, decision.notify.value, at);
        if pushed.Err? {
          return Err(pushed.error);
        }
      }
      if decision.remove {
        monitors := monitors[..monitorIndex] + monitors[monitorIndex + 1..];
        return Ok(true);
      }
      assert monitors == Replace(old(monitors), monitorIndex, Some(monitors[monitorIndex]));
      return Ok(false);
    }

    method DegradeEveryMonitor() returns (result: Result<bool, Damage>)
      modifies this`monitors
      ensures match DegradeAll(old(monitors))
              case Err(damage) => result == Err(damage)
              case Ok((degraded, any)) => result == Ok(any) && monitors == degraded
    {
      var changed := false;
      assert monitors[0..] == monitors;
      PrependNoneDegraded(DegradeAll(monitors));
      for index := 0 to |monitors|
        invariant |monitors| == |old(monitors)|
        invariant monitors[index..] == old(monitors)[index..]
        invariant DegradeAll(old(monitors))
                  == PrependDegraded(monitors[..index], changed, DegradeAll(monitors[index..]))
      {
        ghost var done := monitors[..index];
        DegradeUnfolds(done, changed, monitors[index..]);
        var cell := new MonitorCell(monitors[index]);
        var degraded := cell.DegradeForRawGap();
        if degraded.Err? {
          return Err(BadMonitor(degraded.error));
        }
        assert monitors[index..][1..] == monitors[index + 1..];
        monitors := monitors[index := cell.Value()];
        assert monitors[..index + 1] == done + [cell.Value()];
        changed := degraded.value || changed;
      }
      return Ok(changed);
    }

    /** What one evaluation does to one monitor when there is output; tells whether it was removed. */
    method VisitOutputAt(index: nat, observation: TerminalObservation, at: Moment)
      returns (result: Result<bool, Damage>)
      requires index < |monitors|
      modifies this`nextEventId, this`eventGapThrough, this`monitors, this`events
      ensures match VisitOutput(old(monitors[index]), old(Log()), observation, at)
              case Err(damage) => result == Err(damage)
              case Ok(visited) =>
                && result == Ok(visited.survivor.None?)
                && View()
                    == old(View()).(monitors := Replace(old(monitors), index, visited.survivor), log := visited.log)
    {
      ghost var before := monitors;
      var cell := new MonitorCell(monitors[index]);
      if cell.runtime.state == Paused || cell.runtime.state == Degraded {
        assert Replace(before, index, Some(before[index])) == before;
        return Ok(false);
      }
      match cell.definition.condition {
        case OutputQuiet(_) =>
          var refused := cell.NoteOutput(at.nowMs);
          monitors := monitors[index := cell.Value()];
          assert monitors == Replace(before, index, Some(cell.Value()));
          return if refused.Some? then Err(BadMonitor(refused.value)) else Ok(false);
        case OutputContains(_) | OutputMatches(_) | ScreenMatches(_) =>
        case _ =>
          assert Replace(before, index, Some(before[index])) == before;
          return Ok(false);
      }
      var decided := DecideOutput(cell, observation, at, Log());
      if decided.Err? {
        return Err(decided.error);
      }
      ghost var applied := ApplyDecision(cell.Value(), Log(), decided.value, at);
      monitors := monitors[index := cell.Value()];
      result := Decide(index, decided.value, at);
      if applied.Ok? {
        ReplaceTwice(before, index, cell.Value(), applied.value.survivor);
      }
    }

    /** The first scan of an evaluation. A removal leaves the index where it is. */
    method ScanOutput(observation: TerminalObservation, at: Moment) returns (result: Option<Damage>)
      modifies this`nextEventId, this`eventGapThrough, this`monitors, this`events
      ensures match Sweep(OutputPhase, old(monitors), old(Log()), observation, at)
              case Err(damage) => result == Some(damage)
              case Ok(swept) => result == None && View() == old(View()).(monitors := swept.monitors, log := swept.log)
    {
      var index := 0;
      ghost var changed := false;
      assert monitors[..0] == [] && monitors[0..] == monitors;
      PrependNothing(Sweep(OutputPhase, monitors, Log(), observation, at));
      while index < |monitors|
        invariant index <= |monitors|
        invariant View() == old(View()).(monitors := monitors, log := Log())
        invariant Sweep(OutputPhase, old(monitors), old(Log()), observation, at)
               == Prepend(monitors[..index], changed, Sweep(OutputPhase, monitors[index..], Log(), observation, at))
        decreases |monitors| - index
      {
        ghost var visit := Visit(OutputPhase, monitors[index], Log(), observation, at);
        if visit.Ok? {
          SweepUnfolds(OutputPhase, monitors, index, Log(), changed, observation, at, visit.value);
          changed := changed || visit.value.changed;
        }
        var removed := VisitOutputAt(index, observation, at);
        if removed.Err? {
          return Some(removed.error);
        }
        if !removed.value {
          index := index + 1;
        }
      }
      return None;
    }

    /** What one evaluation does to one monitor whatever there is to read: quiet periods, lifetimes, intervals. */
    method VisitTimerAt(index: nat, at: Moment) returns (result: Result<(bool, bool), Damage>)
      requires index < |monitors|
      modifies this`nextEventId, this`eventGapThrough, this`monitors, this`events
      ensures match VisitTimer(old(monitors[index]), old(Log()), at)
              case Err(damage) => result == Err(damage)
              case Ok(visited) =>
                && result == Ok((visited.survivor.None?, visited.changed))
                && View()
                    == old(View()).(monitors := Replace(old(monitors), index, visited.survivor), log := visited.log)
    {
      ghost var before := monitors;
      var cell := new MonitorCell(monitors[index]);
      var decided;
      if monitors[index].QuietDue(at.nowMs) {
        decided := cell.Observe(QuietElapsed, true, at.nowMs);
      } else {
        decided := cell.TimerDecision(at.nowMs);
      }
      if decided.Err? {
        return Err(BadMonitor(decided.error));
      }
      monitors := monitors[index := cell.Value()];
      ghost var updated := monitors;
      assert forall survivor :: Replace(updated, index, survivor) == Replace(before, index, survivor);
      if decided.value == NO_DECISION {
        assert Replace(updated, index, Some(cell.Value())) == updated;
        return Ok((false, false));
      }
      var removed := Decide(index, decided.value, at);
      return if removed.Err? then Err(removed.error) else Ok((removed.value, true));
    }

    /** The second scan of an evaluation. */
    method ScanTimers(observation: TerminalObservation, at: Moment) returns (result: Result<bool, Damage>)
      modifies this`nextEventId, this`eventGapThrough, this`monitors, this`events
      ensures match Sweep(TimerPhase, old(monitors), old(Log()), observation, at)
              case Err(damage) => result == Err(damage)
              case Ok(swept) => result == Ok(swept.changed)
                                && View() == old(View()).(monitors := swept.monitors, log := swept.log)
    {
      var index := 0;
      var changed := false;
      assert monitors[..0] == [] && monitors[0..] == monitors;
      PrependNothing(Sweep(TimerPhase, monitors, Log(), observation, at));
      while index < |monitors|
        invariant index <= |monitors|
        invariant View() == old(View()).(monitors := monitors, log := Log())
        invariant Sweep(TimerPhase, old(monitors), old(Log()), observation, at)
               == Prepend(monitors[..index], changed, Sweep(TimerPhase, monitors[index..], Log(), observation, at))
        decreases |monitors| - index
      {
        ghost var visit := Visit(TimerPhase, monitors[index], Log(), observation, at);
        if visit.Ok? {
          SweepUnfolds(TimerPhase, monitors, index, Log(), changed, observation, at, visit.value);
        }
        var visited := VisitTimerAt(index, at);
        if visited.Err? {
          return Err(visited.error);
        }
        changed := changed || visited.value.1;
        if !visited.value.0 {
          index := index + 1;
        }
      }
      return Ok(changed);
    }

    method LastDecision(cell: MonitorCell, exitCode: Option<int>, signal: Option<Signal>, at: Moment)
      returns (result: Result<Decision, Damage>)
      modifies cell`runtime
      ensures match EndDecision(old(cell.Value()), exitCode, signal, at)
              case Err(error) => result == Err(BadMonitor(error))
              case Ok((last, decision)) => result == Ok(decision) && cell.Value() == last
    {
      var condition := cell.definition.condition;
      var decision := NO_DECISION;
      if condition.IsExitCondition() && at.lifecycle == Exited {
        var decided := cell.Observe(ExitSeen, ExitMatches(condition, at.lifecycle, exitCode, signal), at.nowMs);
        if decided.Err? {
          return Err(BadMonitor(decided.error));
        }
        decision := decided.value;
      }
      if decision.notify.None? && cell.definition.notify == OnExit
          && cell.runtime.lastEventReason != Some(SessionExit) {
        var decided := cell.Observe(SessionExitSeen, false, at.nowMs);
        if decided.Err? {
          return Err(BadMonitor(decided.error));
        }
        decision := decided.value;
      }
      result := Ok(decision);
    }

    method EndFirst(exitCode: Option<int>, signal: Option<Signal>, at: Moment) returns (result: Option<Damage>)
      requires |monitors| > 0
      modifies this`nextEventId, this`eventGapThrough, this`monitors, this`events
      ensures match EndOne(old(monitors[0]), old(Log()), exitCode, signal, at)
              case Err(damage) => result == Some(damage)
              case Ok(log) => result == None && View() == old(View()).(monitors := old(monitors)[1..], log := log)
    {
      var cell := new MonitorCell(monitors[0]);
      var decision := LastDecision(cell, exitCode, signal, at);
      if decision.Err? {
        return Some(decision.error);
      }
      monitors := monitors[0 := cell.Value()];
      ghost var updated := monitors;
      var removed := Decide(0, decision.value.(remove := true), at);
      assert Replace(updated, 0, None) == old(monitors)[1..];
      return if removed.Err? then Some(removed.error) else None;
    }

    /** Takes monitors from the front until none is left. */
    method EndMonitors(exitCode: Option<int>, signal: Option<Signal>, at: Moment) returns (result: Option<Damage>)
      modifies this`nextEventId, this`eventGapThrough, this`monitors, this`events
      ensures match EndAll(old(monitors), old(Log()), exitCode, signal, at)
              case Err(damage) => result == Some(damage)
              case Ok(log) => result == None && View() == old(View()).(monitors := [], log := log)
    {
      while |monitors| > 0
        invariant View() == old(View()).(monitors := monitors, log := Log())
        invariant EndAll(old(monitors), old(Log()), exitCode, signal, at)
                  == EndAll(monitors, Log(), exitCode, signal, at)
        decreases |monitors|
      {
        var refused := EndFirst(exitCode, signal, at);
        if refused.Some? {
          return refused;
        }
      }
      return None;
    }

    method PollFirstDue(pollMatched: bool, at: Moment) returns (result: Result<bool, Damage>)
      modifies this`nextEventId, this`eventGapThrough, this`monitors, this`events
      ensures match PollOne(old(monitors), old(Log()), pollMatched, at)
              case Err(damage) => result == Err(damage)
              case Ok(polled) => result == Ok(polled.changed)
                                 && View() == old(View()).(monitors := polled.monitors, log := polled.log)
    {
      var due := FirstPollingDue(monitors, at.nowMs);
      if due.None? {
        return Ok(false);
      }
      PollingIndexInRange(monitors, at.nowMs);
      ghost var before := monitors;
      var cell := new MonitorCell(monitors[due.value]);
      var decided := cell.Observe(CheckRun, pollMatched, at.nowMs);
      if decided.Err? {
        return Err(BadMonitor(decided.error));
      }
      monitors := monitors[due.value := cell.Value()];
      ghost var updated := monitors;
      var removed := Decide(due.value, decided.value, at);
      assert forall survivor :: Replace(updated, due.value, survivor) == Replace(before, due.value, survivor);
      return if removed.Err? then Err(removed.error) else Ok(true);
    }
  }

  /** The saved monitor set of one session, and nothing else. */
  class MonitorStore {
    const sessionId: Bytes
    var saved: Option<MonitorSet>

    constructor (sessionId: Bytes)
      ensures this.sessionId == sessionId && saved == None
    {
      this.sessionId := sessionId;
      saved := None;
    }

    method LoadOptional() returns (result: Result<Option<Candidate>, StoreError>)
      ensures match Load(saved, sessionId)
              case Err(error) => result == Err(error)
              case Ok(None) => result == Ok(None)
              case Ok(Some(view)) => result.Ok? && result.value.Some? && fresh(result.value.value)
                                     && result.value.value.View() == view
    {
      if saved.None? {
        return Ok(None);
      }
      var candidate := new Candidate(saved.value);
      var damage := candidate.CheckValid(sessionId);
      return if damage.Some? then Err(Corrupt(damage.value)) else Ok(Some(candidate));
    }

    /** Writes the whole candidate, or nothing. */
    method SaveCandidate(candidate: Candidate) returns (result: Option<StoreError>)
      modifies this`saved
      ensures match Save(candidate.View())
              case Err(error) => result == Some(error) && saved == old(saved)
              case Ok(stored) => result == None && saved == Some(stored)
    {
      var damage := candidate.CheckValid(candidate.sessionId);
      if damage.Some? {
        return Some(Corrupt(damage.value));
      }
      saved := Some(candidate.View());
      return None;
    }

    method EvaluateTerminal(observation: TerminalObservation, pollMatched: bool, nowMs: I64)
      returns (result: Result<bool, StoreError>)
      modifies this`saved
      ensures match Evaluate(old(saved), sessionId, observation, pollMatched, nowMs)
              case Err(error) => result == Err(error) && saved == old(saved)
              case Ok(None) => result == Ok(false) && saved == old(saved)
              case Ok(Some(stored)) => result == Ok(true) && saved == Some(stored)
    {
      var loaded := LoadOptional();
      if loaded.Err? {
        return Err(loaded.error);
      }
      if loaded.value.None? {
        return Ok(false);
      }
      var candidate := loaded.value.value;
      if |candidate.monitors| == 0 {
        return Ok(false);
      }
      if !observation.rawGap && observation.cursorStart != candidate.cursorOffset {
        return Ok(false);
      }
      if observation.cursorEnd < observation.cursorStart {
        return Err(Corrupt(CursorInconsistent));
      }
      var at := MomentOf(observation, nowMs);
      var evaluated := EvaluateCandidate(candidate, observation, pollMatched, at);
      if evaluated.Err? {
        return Err(Corrupt(evaluated.error));
      }
      if !evaluated.value {
        return Ok(false);
      }
      var refused := SaveCandidate(candidate);
      return if refused.Some? then Err(refused.value) else Ok(true);
    }

    method EvaluateScans(candidate: Candidate, observation: TerminalObservation, at: Moment)
      returns (result: Result<bool, Damage>)
      modifies candidate
      ensures match AfterScans(old(candidate.View()), observation, at)
              case Err(damage) => result == Err(damage)
              case Ok(evaluated) => result == Ok(evaluated.changed) && candidate.View() == evaluated.candidate
    {
      var changed := false;
      if observation.rawGap {
        var degraded := candidate.DegradeEveryMonitor();
        if degraded.Err? {
          return Err(degraded.error);
        }
        changed := degraded.value || changed;
      }
      if |observation.output| > 0 {
        candidate.lastOutputAtMs := at.nowMs;
        changed := true;
        var refused := candidate.ScanOutput(observation, at);
        if refused.Some? {
          return Err(refused.value);
        }
      }
      candidate.cursorOffset := observation.cursorEnd;
      var timed := candidate.ScanTimers(observation, at);
      return if timed.Err? then timed else Ok(changed || timed.value);
    }

    method EvaluateCandidate(candidate: Candidate, observation: TerminalObservation, pollMatched: bool, at: Moment)
      returns (result: Result<bool, Damage>)
      requires at == MomentOf(observation, at.nowMs)
      modifies candidate
      ensures match EvaluateAccepted(old(candidate.View()), observation, pollMatched, at.nowMs)
              case Err(damage) => result == Err(damage)
              case Ok(evaluated) => result == Ok(evaluated.changed) && candidate.View() == evaluated.candidate
    {
      var timed := EvaluateScans(candidate, observation, at);
      if timed.Err? {
        return timed;
      }
      var changed := timed.value;
      if observation.lifecycle == Running {
        var polled := candidate.PollFirstDue(pollMatched, at);
        if polled.Err? {
          return Err(polled.error);
        }
        changed := changed || polled.value;
      }
      var ended := EndIfExited(candidate, observation, at);
      return if ended.Err? then ended else Ok(changed || ended.value);
    }

    /** Ends every monitor when this evaluation is the one that sees the session stop running. */
    method EndIfExited(candidate: Candidate, observation: TerminalObservation, at: Moment)
      returns (result: Result<bool, Damage>)
      requires at.lifecycle == observation.lifecycle
      modifies candidate
      ensures match AfterLifecycle(Evaluated(old(candidate.View()), false), observation, at)
              case Err(damage) => result == Err(damage)
              case Ok(evaluated) => result == Ok(evaluated.changed) && candidate.View() == evaluated.candidate
    {
      var changed := false;
      if candidate.lastLifecycle == Running && observation.lifecycle != Running {
        changed := true;
        var refused := candidate.EndMonitors(observation.exitCode, observation.signal, at);
        if refused.Some? {
          return Err(refused.value);
        }
      }
      if candidate.lastLifecycle != observation.lifecycle {
        candidate.lastLifecycle := observation.lifecycle;
        changed := true;
      }
      return Ok(changed);
    }

    method End(lifecycle: Lifecycle, nowMs: I64) returns (result: Result<bool, StoreError>)
      modifies this`saved
      ensures match EndSession(old(saved), sessionId, lifecycle, nowMs)
              case Err(error) => result == Err(error) && saved == old(saved)
              case Ok(None) => result == Ok(false) && saved == old(saved)
              case Ok(Some(stored)) => result == Ok(true) && saved == Some(stored)
    {
      var loaded := LoadOptional();
      if loaded.Err? {
        return Err(loaded.error);
      }
      if loaded.value.None? || |loaded.value.value.monitors| == 0 {
        return Ok(false);
      }
      var candidate := loaded.value.value;
      var refused := candidate.EndMonitors(None, None, Moment(lifecycle, candidate.cursorOffset, nowMs));
      if refused.Some? {
        return Err(Corrupt(refused.value));
      }
      candidate.lastLifecycle := lifecycle;
      var unsaved := SaveCandidate(candidate);
      return if unsaved.Some? then Err(unsaved.value) else Ok(true);
    }

    method InspectPage(after: Option<U64>, acknowledge: Option<U64>, maxEvents: nat)
      returns (result: Result<Page, StoreError>)
      modifies this`saved
      ensures match Inspect(old(saved), sessionId, after, acknowledge, maxEvents)
              case Err(error) => result == Err(error) && saved == old(saved)
              case Ok((written, page)) => result == Ok(page) && saved == if written.Some? then written else old(saved)
    {
      if maxEvents == 0 || maxEvents > 256 {
        return Err(InvalidArguments(BadPageSize));
      }
      var loaded := LoadOptional();
      if loaded.Err? {
        return Err(loaded.error);
      }
      if loaded.value.None? {
        return Ok(Page([], [], 0, 1));
      }
      var candidate := loaded.value.value;
      if acknowledge.Some? {
        if acknowledge.value == 0 || acknowledge.value >= candidate.nextEventId {
          return Err(InvalidArguments(BadAcknowledgement));
        }
        candidate.acknowledgedThrough := Max(candidate.acknowledgedThrough, acknowledge.value);
        candidate.events := MonitorSets.After(candidate.events, acknowledge.value);
        var unsaved := SaveCandidate(candidate);
        if unsaved.Some? {
          return Err(unsaved.value);
        }
      }
      return Ok(PageOf(candidate.View(), after, maxEvents));
    }

    method OperateOn(operation: Operation, prepared: bool, at: Moment) returns (result: Result<Bytes, StoreError>)
      modifies this`saved
      ensures match Operate(old(saved), sessionId, operation, prepared, at)
              case Err(error) => result == Err(error) && saved == old(saved)
              case Ok((stored, id)) => result == Ok(id) && saved == Some(stored)
    {
      var invalid := operation.Validate();
      if invalid.Some? {
        return Err(InvalidArguments(BadOperation(invalid.value)));
      }
      var loaded := LoadOptional();
      if loaded.Err? {
        return Err(loaded.error);
      }
      var candidate: Candidate;
      if loaded.value.Some? {
        candidate := loaded.value.value;
      } else {
        candidate := new Candidate(EmptySet(sessionId, at.cursorOffset, at.lifecycle, at.nowMs));
      }
      candidate.lastLifecycle := at.lifecycle;
      var id;
      if operation.Add? {
        var added := AddTo(candidate, operation.definition, prepared, at);
        if added.Err? {
          return Err(added.error);
        }
        id := added.value;
      } else {
        var refused := ChangeIn(candidate, operation, prepared, at);
        if refused.Some? {
          return Err(refused.value);
        }
        id := operation.monitorId;
      }
      var damage := candidate.CheckValid(sessionId);
      if damage.Some? {
        return Err(Corrupt(damage.value));
      }
      var unsaved := SaveCandidate(candidate);
      return if unsaved.Some? then Err(unsaved.value) else Ok(id);
    }

    method AddTo(candidate: Candidate, definition: Definition, prepared: bool, at: Moment)
      returns (result: Result<Bytes, StoreError>)
      modifies candidate
      ensures match AddMonitor(old(candidate.View()), definition, prepared, at)
              case Err(error) => result == Err(error)
              case Ok((after, id)) => result == Ok(id) && candidate.View() == after
    {
      if |candidate.monitors| >= MAXIMUM_MONITORS {
        return Err(InvalidArguments(TooManyMonitors));
      }
      var id := StableId(candidate.nextMonitorId);
      if id.Err? {
        return Err(Corrupt(BadMonitor(id.error)));
      }
      if candidate.nextMonitorId == MAX_U64 {
        return Err(Corrupt(MonitorIdsExhausted));
      }
      candidate.nextMonitorId := candidate.nextMonitorId + 1;
      var monitor := NewMonitor(id.value, definition, at.nowMs);
      if monitor.Err? {
        return Err(InvalidArguments(BadDefinition(monitor.error)));
      }
      if !prepared {
        return Err(InvalidArguments(EffectsRefused));
      }
      candidate.monitors := candidate.monitors + [monitor.value];
      return Ok(id.value);
    }

    /** Puts a changed monitor back and logs why. */
    method PutBack(candidate: Candidate, index: nat, changed: Monitor, reason: EventReason, at: Moment)
      returns (result: Option<StoreError>)
      requires index < |candidate.monitors|
      modifies candidate
      ensures match ReplaceAndEmit(old(candidate.View()), index, changed, reason, at)
              case Err(error) => result == Some(error)
              case Ok(after) => result == None && candidate.View() == after
    {
      candidate.monitors := candidate.monitors[index := changed];
      var pushed := candidate.PushEvent(index, reason, at);
      return if pushed.Err? then Some(Corrupt(pushed.error)) else None;
    }

    method ChangeIn(candidate: Candidate, operation: Operation, prepared: bool, at: Moment)
      returns (result: Option<StoreError>)
      requires !operation.Add?
      modifies candidate
      ensures match ChangeMonitor(old(candidate.View()), operation, prepared, at)
              case Err(error) => result == Some(error)
              case Ok(after) => result == None && candidate.View() == after
    {
      FoundIndexInRange(candidate.monitors, operation.monitorId);
      var found := FindMonitor(candidate.monitors, operation.monitorId);
      if found.None? {
        return Some(InvalidArguments(MonitorNotFound));
      }
      var index := found.value;
      var cell := new MonitorCell(candidate.monitors[index]);
      match operation {
        case Update(monitorId, definition) =>
          if cell.runtime.generation == MAX_U64 {
            return Some(Corrupt(GenerationExhausted));
          }
          var generation := cell.runtime.generation + 1;
          var replacement := NewMonitor(monitorId, definition, at.nowMs);
          if replacement.Err? {
            return Some(InvalidArguments(BadDefinition(replacement.error)));
          }
          if !prepared {
            return Some(InvalidArguments(EffectsRefused));
          }
          var renewed := replacement.value.(runtime := replacement.value.runtime.(generation := generation));
          result := PutBack(candidate, index, renewed, Updated, at);
        case Pause(_) =>
          var paused := cell.Pause();
          if !paused {
            return None;
          }
          var overflow := cell.BumpGeneration();
          if overflow.Some? {
            return Some(Corrupt(BadMonitor(overflow.value)));
          }
          result := PutBack(candidate, index, cell.Value(), WasPaused, at);
        case Resume(_) =>
          var resumed := cell.Resume(at.nowMs);
          if resumed.Err? {
            return Some(Corrupt(BadMonitor(resumed.error)));
          }
          if !resumed.value {
            return None;
          }
          var overflow := cell.BumpGeneration();
          if overflow.Some? {
            return Some(Corrupt(BadMonitor(overflow.value)));
          }
          result := PutBack(candidate, index, cell.Value(), Resumed, at);
        case Remove(_) =>
          var pushed := candidate.PushEvent(index, Removed, at);
          if pushed.Err? {
            return Some(Corrupt(pushed.error));
          }
          candidate.monitors := candidate.monitors[..index] + candidate.monitors[index + 1..];
          return None;
      }
    }

    method Install(definitions: seq<Definition>, prepared: seq<bool>, lifecycle: Lifecycle, nowMs: I64)
      returns (result: Option<StoreError>)
      requires |prepared| == |definitions|
      modifies this`saved
      ensures match InstallInitial(old(saved), sessionId, definitions, prepared, lifecycle, nowMs)
              case Err(error) => result == Some(error) && saved == old(saved)
              case Ok(None) => result == None && saved == old(saved)
              case Ok(Some(stored)) => result == None && saved == Some(stored)
    {
      if |definitions| == 0 {
        return None;
      }
      var loaded := LoadOptional();
      if loaded.Err? {
        return Some(loaded.error);
      }
      if loaded.value.Some? {
        return Some(Corrupt(InitialSetExists));
      }
      var monitors := BuildInitialMonitors(definitions, prepared, nowMs);
      if monitors.Err? {
        return Some(monitors.error);
      }
      var empty := EmptySet(sessionId, 0, lifecycle, nowMs);
      var candidate := new Candidate(empty.(nextMonitorId := |monitors.value| + 1, monitors := monitors.value));
      result := SaveCandidate(candidate);
    }

    method BuildInitialMonitors(definitions: seq<Definition>, prepared: seq<bool>, nowMs: I64)
      returns (result: Result<seq<Monitor>, StoreError>)
      requires |prepared| == |definitions|
      ensures |definitions| > MAXIMUM_MONITORS ==> result == Err(InvalidArguments(TooManyMonitors))
      ensures |definitions| <= MAXIMUM_MONITORS ==> result == BuildInitial(definitions, 1, prepared, nowMs)
      ensures result.Ok? ==> |result.value| == |definitions| <= MAXIMUM_MONITORS
    {
      if |definitions| > MAXIMUM_MONITORS {
        return Err(InvalidArguments(TooManyMonitors));
      }
      var monitors: seq<Monitor> := [];
      assert definitions[0..] == definitions && prepared[0..] == prepared;
      PrependNothingBuilt(BuildInitial(definitions, 1, prepared, nowMs));
      for index := 0 to |definitions|
        invariant |monitors| == index
        invariant BuildInitial(definitions, 1, prepared, nowMs)
               == PrependBuilt(monitors, BuildInitial(definitions[index..], index + 1, prepared[index..], nowMs))
      {
        assert definitions[index..][1..] == definitions[index + 1..] && prepared[index..][1..] == prepared[index + 1..];
        match StableId(index + 1) {
          case Err(error) =>
            return Err(Corrupt(BadMonitor(error)));
          case Ok(id) =>
            var monitor :- NewMonitor(id, definitions[index], nowMs).MapError(e => InvalidArguments(BadDefinition(e)));
            if !prepared[index] {
              return Err(InvalidArguments(EffectsRefused));
            }
            PrependBuiltOne(monitors, monitor,
                BuildInitial(definitions[index + 1..], index + 2, prepared[index + 1..], nowMs));
            monitors := monitors + [monitor];
        }
      }
      assert monitors + [] == monitors;
      return Ok(monitors);
    }
  }

  function PrependBuilt(built: seq<Monitor>, rest: Result<seq<Monitor>, StoreError>): Result<seq<Monitor>, StoreError> {
    var monitors :- rest;
    Ok(built + monitors)
  }

  lemma PrependNothingBuilt(rest: Result<seq<Monitor>, StoreError>)
    ensures PrependBuilt([], rest) == rest
  {
    if rest.Ok? {
      assert [] + rest.value == rest.value;
    }
  }

  lemma PrependBuiltOne(built: seq<Monitor>, next: Monitor, rest: Result<seq<Monitor>, StoreError>)
    ensures PrependBuilt(built, PrependBuilt([next], rest)) == PrependBuilt(built + [next], rest)
  {
    if rest.Ok? {
      assert built + ([next] + rest.value) == built + [next] + rest.value;
    }
  }
}
