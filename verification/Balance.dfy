// What every store operation's monitors find, report and do: matches found, matches reported and monitors gone agree.

module Balance {
  import opened Basics
  import opened Schedule
  import opened Monitors
  import opened MonitorSets
  import opened SetInvariants
  import opened StoreTheorems
  import opened Announcements

  /** Exactly the monitors that found a match report one, each as far as it owed a report. */
  predicate Told(before: seq<Monitor>, added: seq<MonitorEvent>, found: set<Bytes>, id: Bytes) {
    Reports(added, id) == if id in found then Owed(before, id) else 0
  }

  predicate HasOrigin(before: seq<Monitor>, survivor: Monitor, found: set<Bytes>) {
    exists origin :: origin in before && Survives(origin, survivor, origin.monitorId in found)
  }

  /** Nobody is new, whoever stays goes on as what it found demands, and every match found is reported. */
  ghost predicate Balanced(before: seq<Monitor>, after: seq<Monitor>, added: seq<MonitorEvent>, found: set<Bytes>) {
    && found <= IdSet(before)
    && IdSet(after) <= IdSet(before)
    && (forall survivor | survivor in after :: HasOrigin(before, survivor, found))
    && (forall id: Bytes :: Told(before, added, found, id))
  }

  /** A monitor that is gone had to go, and one that had to go on its match is gone. */
  predicate LeftRightly(monitor: Monitor, after: seq<Monitor>, found: set<Bytes>, nowMs: I64) {
    if monitor.monitorId in IdSet(after) then !(monitor.definition.lifetime == UntilMatch && monitor.monitorId in found)
    else GoesRightly(monitor, monitor.monitorId in found, nowMs)
  }

  predicate AllLeftRightly(before: seq<Monitor>, after: seq<Monitor>, found: set<Bytes>, nowMs: I64) {
    forall monitor | monitor in before :: LeftRightly(monitor, after, found, nowMs)
  }

  lemma {:induction false} OwedByNobody(monitors: seq<Monitor>, id: Bytes)
    requires id !in IdSet(monitors)
    ensures Owed(monitors, id) == 0
  {
    if monitors != [] {
      assert monitors[0] in monitors && IdSet(monitors[1..]) <= IdSet(monitors);
      OwedByNobody(monitors[1..], id);
    }
  }

  lemma {:induction false} OwedByOne(monitors: seq<Monitor>, monitor: Monitor)
    requires DistinctIds(monitors) && monitor in monitors
    ensures Owed(monitors, monitor.monitorId) == Owes(monitor)
  {
    if monitors[0] != monitor {
      var i: nat :| i < |monitors| && monitors[i] == monitor;
      assert monitors[1..][i - 1] == monitor;
      OwedByOne(monitors[1..], monitor);
    }
  }

  lemma {:induction false} NoReports(events: seq<MonitorEvent>, id: Bytes)
    requires forall k: nat | k < |events| :: events[k].monitorId != id || events[k].reason != ConditionMatched
    ensures Reports(events, id) == 0
  {
    if events != [] {
      NoReports(events[1..], id);
    }
  }

  lemma OnlyOneHasTheId(monitors: seq<Monitor>, a: Monitor, b: Monitor)
    requires DistinctIds(monitors) && a in monitors && b in monitors && a.monitorId == b.monitorId
    ensures a == b
  {
    var i: nat :| i < |monitors| && monitors[i] == a;
    var j: nat :| j < |monitors| && monitors[j] == b;
    assert i == j;
  }

  /** Where a monitor that stayed is afterwards. */
  lemma SurvivorOf(before: seq<Monitor>, after: seq<Monitor>, found: set<Bytes>, monitor: Monitor)
    returns (survivor: Monitor)
    requires DistinctIds(before) && monitor in before && monitor.monitorId in IdSet(after)
    requires forall survivor | survivor in after :: HasOrigin(before, survivor, found)
    ensures survivor in after && Survives(monitor, survivor, monitor.monitorId in found)
  {
    survivor :| survivor in after && survivor.monitorId == monitor.monitorId;
    assert HasOrigin(before, survivor, found);
    var origin :| origin in before && Survives(origin, survivor, origin.monitorId in found);
    OnlyOneHasTheId(before, origin, monitor);
  }

  lemma NothingHappened(monitors: seq<Monitor>, nowMs: I64)
    ensures Balanced(monitors, monitors, [], {}) && AllLeftRightly(monitors, monitors, {}, nowMs)
  {
    forall monitor | monitor in monitors ensures HasOrigin(monitors, monitor, {})
        && monitor.monitorId in IdSet(monitors) {
      assert Survives(monitor, monitor, false);
    }
  }

  // One step after another.

  lemma ReportsAdd(first: seq<Monitor>, second: seq<Monitor>, a: seq<MonitorEvent>, b: seq<MonitorEvent>, f: set<Bytes>,
          g: set<Bytes>, id: Bytes)
    requires DistinctIds(first) && DistinctIds(second)
    requires f <= IdSet(first) && g <= IdSet(second) && Told(first, a, f, id) && Told(second, b, g, id)
    requires forall survivor | survivor in second :: HasOrigin(first, survivor, f)
    ensures Told(first, a + b, f + g, id)
  {
    ReportsConcat(a, b, id);
    if id in g {
      var survivor :| survivor in second && survivor.monitorId == id;
      assert HasOrigin(first, survivor, f);
      var origin :| origin in first && Survives(origin, survivor, origin.monitorId in f);
      OwedByOne(first, origin);
      OwedByOne(second, survivor);
    }
  }

  lemma BalancesAdd(first: seq<Monitor>, second: seq<Monitor>, third: seq<Monitor>, a: seq<MonitorEvent>,
          b: seq<MonitorEvent>, f: set<Bytes>, g: set<Bytes>)
    requires DistinctIds(first) && DistinctIds(second)
    requires Balanced(first, second, a, f) && Balanced(second, third, b, g)
    ensures Balanced(first, third, a + b, f + g)
  {
    forall id: Bytes ensures Told(first, a + b, f + g, id) {
      assert Told(first, a, f, id) && Told(second, b, g, id);
      ReportsAdd(first, second, a, b, f, g, id);
    }
    forall survivor | survivor in third ensures HasOrigin(first, survivor, f + g) {
      assert HasOrigin(second, survivor, g);
      var middle :| middle in second && Survives(middle, survivor, middle.monitorId in g);
      assert HasOrigin(first, middle, f);
      var origin :| origin in first && Survives(origin, middle, origin.monitorId in f);
      assert Survives(origin, survivor, origin.monitorId in f + g);
    }
  }

  lemma LeavesAdd(first: seq<Monitor>, second: seq<Monitor>, third: seq<Monitor>, f: set<Bytes>,
          g: set<Bytes>, nowMs: I64)
    requires DistinctIds(first) && IdSet(third) <= IdSet(second)
    requires forall survivor | survivor in second :: HasOrigin(first, survivor, f)
    requires g <= IdSet(second)
    requires AllLeftRightly(first, second, f, nowMs) && AllLeftRightly(second, third, g, nowMs)
    ensures AllLeftRightly(first, third, f + g, nowMs)
  {
    forall monitor | monitor in first ensures LeftRightly(monitor, third, f + g, nowMs) {
      assert LeftRightly(monitor, second, f, nowMs);
      if monitor.monitorId in IdSet(second) {
        var middle := SurvivorOf(first, second, f, monitor);
        assert LeftRightly(middle, third, g, nowMs);
      }
    }
  }

  // One monitor before the rest.

  function Just(found: bool, id: Bytes): set<Bytes> {
    if found then {id} else {}
  }

  function Optional(survivor: Option<Monitor>): seq<Monitor> {
    if survivor.Some? then [survivor.value] else []
  }

  lemma ConsIds(monitor: Monitor, rest: seq<Monitor>)
    ensures IdSet([monitor] + rest) == {monitor.monitorId} + IdSet(rest)
  {
    var all := [monitor] + rest;
    assert forall m :: m in all <==> m == monitor || m in rest;
  }

  lemma OptionalIds(survivor: Option<Monitor>, rest: seq<Monitor>)
    ensures IdSet(Optional(survivor) + rest) == IdSet(rest) + if survivor.Some? then {survivor.value.monitorId} else {}
  {
    if survivor.Some? {
      ConsIds(survivor.value, rest);
    } else {
      assert Optional(survivor) + rest == rest;
    }
  }

  lemma ReportsCons(monitor: Monitor, rest: seq<Monitor>, a: seq<MonitorEvent>, b: seq<MonitorEvent>, found: bool,
          g: set<Bytes>, id: Bytes)
    requires SpeaksTruly(monitor, a, found) && Told(rest, b, g, id) && g <= IdSet(rest)
             && monitor.monitorId !in IdSet(rest)
    ensures Told([monitor] + rest, a + b, Just(found, monitor.monitorId) + g, id)
  {
    ReportsConcat(a, b, id);
    assert ([monitor] + rest)[1..] == rest;
    if id == monitor.monitorId {
      OwedByNobody(rest, id);
    } else {
      NoReports(a, id);
    }
  }

  /** One monitor at the head, truly spoken for, before a balanced rest. */
  lemma BalanceCons(monitor: Monitor, survivor: Option<Monitor>, rest: seq<Monitor>, after: seq<Monitor>,
          a: seq<MonitorEvent>, b: seq<MonitorEvent>, found: bool, g: set<Bytes>)
    requires SpeaksTruly(monitor, a, found) && Balanced(rest, after, b, g)
    requires survivor.Some? ==> Survives(monitor, survivor.value, found)
    requires monitor.monitorId !in IdSet(rest)
    ensures Balanced([monitor] + rest, Optional(survivor) + after, a + b, Just(found, monitor.monitorId) + g)
  {
    var before, all, f := [monitor] + rest, Optional(survivor) + after, Just(found, monitor.monitorId) + g;
    ConsIds(monitor, rest);
    OptionalIds(survivor, after);
    forall id: Bytes ensures Told(before, a + b, f, id) {
      assert Told(rest, b, g, id);
      ReportsCons(monitor, rest, a, b, found, g, id);
    }
    forall other | other in all ensures HasOrigin(before, other, f) {
      if survivor == Some(other) {
        assert monitor in before;
      } else {
        assert HasOrigin(rest, other, g);
        var origin :| origin in rest && Survives(origin, other, origin.monitorId in g);
        assert origin in before && origin.monitorId in IdSet(rest);
      }
    }
  }

  lemma LeavesCons(monitor: Monitor, survivor: Option<Monitor>, rest: seq<Monitor>, after: seq<Monitor>, found: bool,
          g: set<Bytes>, nowMs: I64)
    requires survivor.Some? ==> survivor.value.monitorId == monitor.monitorId
                                && !(monitor.definition.lifetime == UntilMatch && found)
    requires survivor.None? ==> GoesRightly(monitor, found, nowMs)
    requires monitor.monitorId !in IdSet(rest) && g <= IdSet(rest) && IdSet(after) <= IdSet(rest)
    requires AllLeftRightly(rest, after, g, nowMs)
    ensures AllLeftRightly([monitor] + rest, Optional(survivor) + after, Just(found, monitor.monitorId) + g, nowMs)
  {
    OptionalIds(survivor, after);
    forall other | other in [monitor] + rest
      ensures LeftRightly(other, Optional(survivor) + after, Just(found, monitor.monitorId) + g, nowMs)
    {
      if other in rest {
        assert LeftRightly(other, after, g, nowMs) && other.monitorId in IdSet(rest);
      }
    }
  }

  // Sweeps.

  /** Who finds a match in a sweep. */
  function FoundBy(phase: Phase, monitors: seq<Monitor>, observation: TerminalObservation, at: Moment): set<Bytes> {
    set monitor | monitor in monitors && VisitFinds(phase, monitor, observation, at) :: monitor.monitorId
  }

  lemma FoundByCons(phase: Phase, monitor: Monitor, rest: seq<Monitor>, observation: TerminalObservation, at: Moment)
    ensures FoundBy(phase, [monitor] + rest, observation, at)
         == Just(VisitFinds(phase, monitor, observation, at), monitor.monitorId) + FoundBy(phase, rest, observation, at)
  {
    var all := [monitor] + rest;
    assert forall m :: m in all <==> m == monitor || m in rest;
  }

  lemma {:induction false} SweepBalances(phase: Phase, monitors: seq<Monitor>, log: EventLog,
          observation: TerminalObservation, at: Moment)
    returns (added: seq<MonitorEvent>)
    requires MonitorsInv(monitors, log.nextEventId) && LogInv(log) && at.nowMs >= 0
    requires Sweep(phase, monitors, log, observation, at).Ok?
    ensures var swept, found := Sweep(phase, monitors, log, observation, at).value,
            FoundBy(phase, monitors, observation, at);
            && Appends(log, swept.log, added)
            && Balanced(monitors, swept.monitors, added, found)
            && AllLeftRightly(monitors, swept.monitors, found, at.nowMs)
    ensures |added| <= |monitors|
    decreases |monitors|
  {
    if monitors == [] {
      AppendsNothing(log);
      added := [];
      NothingHappened(monitors, at.nowMs);
      assert FoundBy(phase, monitors, observation, at) == {};
    } else {
      assert monitors[0] in monitors;
      VisitKeeps(phase, monitors[0], log, observation, at);
      var first := VisitSpeaks(phase, monitors[0], log, observation, at);
      var visited := Visit(phase, monitors[0], log, observation, at).value;
      MonitorsInvTail(monitors, log.nextEventId, visited.log.nextEventId);
      var later := SweepBalances(phase, monitors[1..], visited.log, observation, at);
      var rest := Sweep(phase, monitors[1..], visited.log, observation, at).value;
      added := first + later;
      AppendsCompose(log, visited.log, rest.log, first, later);
      var finds, g := VisitFinds(phase, monitors[0], observation, at), FoundBy(phase, monitors[1..], observation, at);
      BalanceCons(monitors[0], visited.survivor, monitors[1..], rest.monitors, first, later, finds, g);
      LeavesCons(monitors[0], visited.survivor, monitors[1..], rest.monitors, finds, g, at.nowMs);
      FoundByCons(phase, monitors[0], monitors[1..], observation, at);
      assert [monitors[0]] + monitors[1..] == monitors;
      assert Sweep(phase, monitors, log, observation, at).value.monitors == Optional(visited.survivor) + rest.monitors;
    }
  }

  lemma FirstIsApart(monitors: seq<Monitor>)
    requires monitors != [] && DistinctIds(monitors)
    ensures monitors[0].monitorId !in IdSet(monitors[1..])
  {
    var rest := monitors[1..];
    forall m | m in rest ensures m.monitorId != monitors[0].monitorId {
      var i: nat :| i < |rest| && rest[i] == m;
      assert monitors[i + 1] == m;
    }
  }

  lemma ReplaceLater(first: Monitor, rest: seq<Monitor>, index: nat, next: nat, survivor: Option<Monitor>)
    requires index < |rest| && next == index + 1
    ensures Replace([first] + rest, next, survivor) == [first] + Replace(rest, index, survivor)
  {
  }

  lemma {:induction false} ReplaceBalances(monitors: seq<Monitor>, index: nat, survivor: Option<Monitor>,
          added: seq<MonitorEvent>, found: bool, nowMs: I64)
    requires index < |monitors| && DistinctIds(monitors) && Decided(monitors[index], survivor, added, found, nowMs)
    ensures Balanced(monitors, Replace(monitors, index, survivor), added, Just(found, monitors[index].monitorId))
    ensures AllLeftRightly(monitors, Replace(monitors, index, survivor), Just(found, monitors[index].monitorId), nowMs)
    decreases index
  {
    var first, rest := monitors[0], monitors[1..];
    assert monitors == [first] + rest;
    FirstIsApart(monitors);
    if index == 0 {
      ReplaceFirst(first, rest, survivor, added, found, nowMs);
      assert Replace(monitors, 0, survivor) == Optional(survivor) + rest;
    } else {
      var inner: nat := index - 1;
      ReplaceBalances(rest, inner, survivor, added, found, nowMs);
      ReplaceLater(first, rest, inner, index, survivor);
      KeepFirst(first, rest, Replace(rest, inner, survivor), added, Just(found, rest[inner].monitorId), nowMs);
    }
  }

  lemma ReplaceFirst(first: Monitor, rest: seq<Monitor>, survivor: Option<Monitor>, added: seq<MonitorEvent>,
          found: bool, nowMs: I64)
    requires first.monitorId !in IdSet(rest) && Decided(first, survivor, added, found, nowMs)
    ensures Balanced([first] + rest, Optional(survivor) + rest, added, Just(found, first.monitorId))
    ensures AllLeftRightly([first] + rest, Optional(survivor) + rest, Just(found, first.monitorId), nowMs)
  {
    NothingHappened(rest, nowMs);
    BalanceCons(first, survivor, rest, rest, added, [], found, {});
    LeavesCons(first, survivor, rest, rest, found, {}, nowMs);
    assert added + [] == added && Just(found, first.monitorId) + {} == Just(found, first.monitorId);
  }

  lemma KeepFirst(first: Monitor, rest: seq<Monitor>, after: seq<Monitor>, added: seq<MonitorEvent>,
          found: set<Bytes>, nowMs: I64)
    requires first.monitorId !in IdSet(rest) && Balanced(rest, after, added, found)
             && AllLeftRightly(rest, after, found, nowMs)
    ensures Balanced([first] + rest, [first] + after, added, found)
            && AllLeftRightly([first] + rest, [first] + after, found, nowMs)
  {
    assert SpeaksTruly(first, [], false) && Survives(first, first, false);
    BalanceCons(first, Some(first), rest, after, [], added, false, found);
    LeavesCons(first, Some(first), rest, after, false, found, nowMs);
    assert [] + added == added && Just(false, first.monitorId) + found == found;
  }

  /** Who finds a match when one polling condition is checked. */
  function FoundByPoll(monitors: seq<Monitor>, pollMatched: bool, at: Moment): set<Bytes> {
    PollingIndexInRange(monitors, at.nowMs);
    match FirstPollingDue(monitors, at.nowMs)
    case None => {}
    case Some(index) => Just(Awaits(monitors[index], at.nowMs) && pollMatched, monitors[index].monitorId)
  }

  lemma PollBalances(monitors: seq<Monitor>, log: EventLog, pollMatched: bool, at: Moment)
    returns (added: seq<MonitorEvent>)
    requires MonitorsInv(monitors, log.nextEventId) && LogInv(log) && at.nowMs >= 0
    requires PollOne(monitors, log, pollMatched, at).Ok?
    ensures var polled, found := PollOne(monitors, log, pollMatched, at).value, FoundByPoll(monitors, pollMatched, at);
            && Appends(log, polled.log, added)
            && Balanced(monitors, polled.monitors, added, found)
            && AllLeftRightly(monitors, polled.monitors, found, at.nowMs)
    ensures |added| <= 1
  {
    PollingIndexInRange(monitors, at.nowMs);
    match FirstPollingDue(monitors, at.nowMs) {
      case None =>
        AppendsNothing(log);
        added := [];
        NothingHappened(monitors, at.nowMs);
      case Some(index) =>
        assert monitors[index] in monitors;
        ObserveThenApply(monitors[index], CheckRun, pollMatched, log, at);
        added := ObserveSpeaks(monitors[index], CheckRun, pollMatched, log, at);
        var (after, decision) := monitors[index].Observe(CheckRun, pollMatched, at.nowMs).value;
        ReplaceBalances(monitors, index, ApplyDecision(after, log, decision, at).value.survivor, added,
                        Awaits(monitors[index], at.nowMs) && pollMatched, at.nowMs);
    }
  }

  // The end of a session.

  /** The end the monitor was waiting for. */
  predicate EndFinds(monitor: Monitor, exitCode: Option<int>, signal: Option<Signal>, at: Moment) {
    Awaits(monitor, at.nowMs) && ExitMatches(monitor.definition.condition, at.lifecycle, exitCode, signal)
  }

  function FoundByEnd(monitors: seq<Monitor>, exitCode: Option<int>, signal: Option<Signal>, at: Moment): set<Bytes> {
    set monitor | monitor in monitors && EndFinds(monitor, exitCode, signal, at) :: monitor.monitorId
  }

  lemma ExitNeverMatches(monitor: Monitor, nowMs: I64)
    requires monitor.Observe(SessionExitSeen, false, nowMs).Ok?
    ensures monitor.Observe(SessionExitSeen, false, nowMs).value.1.notify != Some(ConditionMatched)
  {
  }

  lemma EndDecisionOwes(monitor: Monitor, exitCode: Option<int>, signal: Option<Signal>, at: Moment)
    requires EndDecision(monitor, exitCode, signal, at).Ok?
    ensures EndDecision(monitor, exitCode, signal, at).value.1.notify == Some(ConditionMatched)
       <==> EndFinds(monitor, exitCode, signal, at) && Owes(monitor) == 1
  {
    var matches := ExitMatches(monitor.definition.condition, at.lifecycle, exitCode, signal);
    var exits := monitor.definition.condition.IsExitCondition() && at.lifecycle == Exited;
    var (exited, decision) :=
        (if exits then monitor.Observe(ExitSeen, matches, at.nowMs) else Ok((monitor, NO_DECISION))).value;
    if exits {
      ObserveDecides(monitor, ExitSeen, matches, at.nowMs);
    }
    if decision.notify.None? && exited.definition.notify == OnExit
        && exited.runtime.lastEventReason != Some(SessionExit) {
      ExitNeverMatches(exited, at.nowMs);
    }
  }

  lemma EndOneSpeaks(monitor: Monitor, log: EventLog, exitCode: Option<int>, signal: Option<Signal>, at: Moment)
    returns (added: seq<MonitorEvent>)
    requires MonitorInv(monitor, log.nextEventId) && LogInv(log) && at.nowMs >= 0
    requires EndOne(monitor, log, exitCode, signal, at).Ok?
    ensures Appends(log, EndOne(monitor, log, exitCode, signal, at).value, added)
    ensures SpeaksTruly(monitor, added, EndFinds(monitor, exitCode, signal, at))
  {
    EndDecisionKeeps(monitor, exitCode, signal, at, log.nextEventId);
    EndDecisionOwes(monitor, exitCode, signal, at);
    var (last, decision) := EndDecision(monitor, exitCode, signal, at).value;
    added := ApplyAppends(last, log, decision.(remove := true), at);
  }

  lemma FoundByEndCons(monitor: Monitor, rest: seq<Monitor>, exitCode: Option<int>, signal: Option<Signal>, at: Moment)
    ensures FoundByEnd([monitor] + rest, exitCode, signal, at)
         == Just(EndFinds(monitor, exitCode, signal, at), monitor.monitorId) + FoundByEnd(rest, exitCode, signal, at)
  {
    var all := [monitor] + rest;
    assert forall m :: m in all <==> m == monitor || m in rest;
  }

  lemma {:induction false} EndAllBalances(monitors: seq<Monitor>, log: EventLog, exitCode: Option<int>,
          signal: Option<Signal>, at: Moment)
    returns (added: seq<MonitorEvent>)
    requires MonitorsInv(monitors, log.nextEventId) && LogInv(log) && at.nowMs >= 0
    requires EndAll(monitors, log, exitCode, signal, at).Ok?
    ensures Appends(log, EndAll(monitors, log, exitCode, signal, at).value, added)
    ensures Balanced(monitors, [], added, FoundByEnd(monitors, exitCode, signal, at))
    ensures |added| <= |monitors|
    decreases |monitors|
  {
    if monitors == [] {
      AppendsNothing(log);
      added := [];
      NothingHappened(monitors, at.nowMs);
      assert FoundByEnd(monitors, exitCode, signal, at) == {};
    } else {
      assert monitors[0] in monitors;
      EndOneKeeps(monitors[0], log, exitCode, signal, at);
      var first := EndOneSpeaks(monitors[0], log, exitCode, signal, at);
      var next := EndOne(monitors[0], log, exitCode, signal, at).value;
      MonitorsInvTail(monitors, log.nextEventId, next.nextEventId);
      var later := EndAllBalances(monitors[1..], next, exitCode, signal, at);
      added := first + later;
      AppendsCompose(log, next, EndAll(monitors, log, exitCode, signal, at).value, first, later);
      var nobody: seq<Monitor> := [];
      BalanceCons(monitors[0], None, monitors[1..], nobody, first, later,
                  EndFinds(monitors[0], exitCode, signal, at), FoundByEnd(monitors[1..], exitCode, signal, at));
      FoundByEndCons(monitors[0], monitors[1..], exitCode, signal, at);
      assert [monitors[0]] + monitors[1..] == monitors && Optional(None) + nobody == nobody;
    }
  }

  // One evaluation, stage by stage.

  lemma {:induction false} DegradingSurvives(monitors: seq<Monitor>, after: seq<Monitor>)
    requires |after| == |monitors|
    requires forall i: nat | i < |monitors| ::
               SameMonitor(monitors[i], after[i]) && Ok(after[i]) == Degradation(monitors[i])
    ensures forall survivor | survivor in after :: HasOrigin(monitors, survivor, {})
  {
    forall survivor | survivor in after ensures HasOrigin(monitors, survivor, {}) {
      var i: nat :| i < |after| && after[i] == survivor;
      assert Survives(monitors[i], survivor, false);
    }
  }

  lemma GapBalances(candidate: MonitorSet, observation: TerminalObservation, nowMs: I64)
    requires SetInv(candidate) && AfterGap(candidate, observation).Ok?
    ensures var after := AfterGap(candidate, observation).value.candidate;
            && Appends(candidate.log, after.log, [])
            && Balanced(candidate.monitors, after.monitors, [], {})
            && AllLeftRightly(candidate.monitors, after.monitors, {}, nowMs)
  {
    AppendsNothing(candidate.log);
    NothingHappened(candidate.monitors, nowMs);
    if observation.rawGap {
      DegradeAllKeeps(candidate.monitors, candidate.log.nextEventId);
      DegradingSurvives(candidate.monitors, AfterGap(candidate, observation).value.candidate.monitors);
      assert forall monitor | monitor in candidate.monitors :: monitor.monitorId in IdSet(candidate.monitors);
    }
  }

  /** Who finds a match in the first scan. */
  function FoundByOutput(monitors: seq<Monitor>, observation: TerminalObservation, at: Moment): set<Bytes> {
    if observation.output == [] then {} else FoundBy(OutputPhase, monitors, observation, at)
  }

  lemma OutputStageBalances(before: Evaluated, observation: TerminalObservation, at: Moment)
    returns (added: seq<MonitorEvent>)
    requires SetInv(before.candidate) && at.nowMs >= 0 && AfterOutput(before, observation, at).Ok?
    ensures var after, found := AfterOutput(before, observation, at).value.candidate,
            FoundByOutput(before.candidate.monitors, observation, at);
            && SetInv(after) && Appends(before.candidate.log, after.log, added)
            && Balanced(before.candidate.monitors, after.monitors, added, found)
            && AllLeftRightly(before.candidate.monitors, after.monitors, found, at.nowMs)
    ensures |added| <= MAXIMUM_MONITORS
  {
    if observation.output == [] {
      AppendsNothing(before.candidate.log);
      NothingHappened(before.candidate.monitors, at.nowMs);
      added := [];
    } else {
      AfterSweepKeeps(OutputPhase, Evaluated(before.candidate.(lastOutputAtMs := at.nowMs), true), observation, at);
      added := SweepBalances(OutputPhase, before.candidate.monitors, before.candidate.log, observation, at);
    }
  }

  function FoundByPolling(monitors: seq<Monitor>, pollMatched: bool, at: Moment): set<Bytes> {
    if at.lifecycle != Running then {} else FoundByPoll(monitors, pollMatched, at)
  }

  lemma PollStageBalances(before: Evaluated, pollMatched: bool, at: Moment) returns (added: seq<MonitorEvent>)
    requires SetInv(before.candidate) && at.nowMs >= 0 && AfterPoll(before, pollMatched, at).Ok?
    ensures var after, found := AfterPoll(before, pollMatched, at).value.candidate,
            FoundByPolling(before.candidate.monitors, pollMatched, at);
            && Appends(before.candidate.log, after.log, added)
            && Balanced(before.candidate.monitors, after.monitors, added, found)
            && AllLeftRightly(before.candidate.monitors, after.monitors, found, at.nowMs)
    ensures |added| <= MAXIMUM_MONITORS
  {
    if at.lifecycle != Running {
      AppendsNothing(before.candidate.log);
      NothingHappened(before.candidate.monitors, at.nowMs);
      added := [];
    } else {
      added := PollBalances(before.candidate.monitors, before.candidate.log, pollMatched, at);
    }
  }

  /** Whether this evaluation is the one that sees the session stop running. */
  predicate SeesTheEnd(candidate: MonitorSet, lifecycle: Lifecycle) {
    candidate.lastLifecycle == Running && lifecycle != Running
  }

  function FoundByEnding(candidate: MonitorSet, observation: TerminalObservation, at: Moment): set<Bytes> {
    if SeesTheEnd(candidate, at.lifecycle)
        then FoundByEnd(candidate.monitors, observation.exitCode, observation.signal, at) else {}
  }

  lemma LifecycleStageBalances(before: Evaluated, observation: TerminalObservation, at: Moment)
    returns (added: seq<MonitorEvent>)
    requires SetInv(before.candidate) && at.nowMs >= 0 && AfterLifecycle(before, observation, at).Ok?
    ensures var after := AfterLifecycle(before, observation, at).value.candidate;
            && Appends(before.candidate.log, after.log, added)
            && Balanced(before.candidate.monitors, after.monitors, added,
                FoundByEnding(before.candidate, observation, at))
            && (if SeesTheEnd(before.candidate, at.lifecycle) then after.monitors == []
                else after.monitors == before.candidate.monitors)
    ensures |added| <= MAXIMUM_MONITORS
  {
    if SeesTheEnd(before.candidate, at.lifecycle) {
      added := EndAllBalances(before.candidate.monitors, before.candidate.log, observation.exitCode,
          observation.signal, at);
    } else {
      AppendsNothing(before.candidate.log);
      NothingHappened(before.candidate.monitors, at.nowMs);
      added := [];
    }
  }

  /** Who finds a match in the two scans. */
  function FoundByScans(candidate: MonitorSet, observation: TerminalObservation, at: Moment): set<Bytes>
    requires AfterScans(candidate, observation, at).Ok?
  {
    var gapped := AfterGap(candidate, observation).value;
    var read := AfterOutput(gapped, observation, at).value;
    FoundByOutput(gapped.candidate.monitors, observation, at)
        + FoundBy(TimerPhase, read.candidate.monitors, observation, at)
  }

  lemma ReadingBalances(candidate: MonitorSet, observation: TerminalObservation, at: Moment)
    returns (added: seq<MonitorEvent>)
    requires SetInv(candidate) && at.nowMs >= 0 && AfterGap(candidate, observation).Ok?
    requires AfterOutput(AfterGap(candidate, observation).value, observation, at).Ok?
    ensures var gapped := AfterGap(candidate, observation).value;
            var read, found := AfterOutput(gapped, observation, at).value.candidate,
                FoundByOutput(gapped.candidate.monitors, observation, at);
            && SetInv(read) && Appends(candidate.log, read.log, added)
            && Balanced(candidate.monitors, read.monitors, added, found)
            && AllLeftRightly(candidate.monitors, read.monitors, found, at.nowMs)
    ensures |added| <= MAXIMUM_MONITORS
  {
    AfterGapKeeps(candidate, observation);
    GapBalances(candidate, observation, at.nowMs);
    var gapped := AfterGap(candidate, observation).value;
    added := OutputStageBalances(gapped, observation, at);
    var read, found := AfterOutput(gapped, observation, at).value,
        FoundByOutput(gapped.candidate.monitors, observation, at);
    AppendsCompose(candidate.log, gapped.candidate.log, read.candidate.log, [], added);
    BalancesAdd(candidate.monitors, gapped.candidate.monitors, read.candidate.monitors, [], added, {}, found);
    LeavesAdd(candidate.monitors, gapped.candidate.monitors, read.candidate.monitors, {}, found, at.nowMs);
    assert [] + added == added && {} + found == found;
  }

  lemma ScansBalance(candidate: MonitorSet, observation: TerminalObservation, at: Moment)
    returns (added: seq<MonitorEvent>)
    requires SetInv(candidate) && at.nowMs >= 0 && AfterScans(candidate, observation, at).Ok?
    ensures var after, found := AfterScans(candidate, observation, at).value.candidate,
            FoundByScans(candidate, observation, at);
            && SetInv(after) && Appends(candidate.log, after.log, added)
            && Balanced(candidate.monitors, after.monitors, added, found)
            && AllLeftRightly(candidate.monitors, after.monitors, found, at.nowMs)
    ensures |added| <= 2 * MAXIMUM_MONITORS
  {
    var gapped := AfterGap(candidate, observation).value;
    var heard := ReadingBalances(candidate, observation, at);
    var read := AfterOutput(gapped, observation, at).value;
    var advanced := read.(candidate := read.candidate.(cursorOffset := observation.cursorEnd));
    AfterSweepKeeps(TimerPhase, advanced, observation, at);
    var timed := SweepBalances(TimerPhase, advanced.candidate.monitors, advanced.candidate.log, observation, at);
    var last := AfterSweep(TimerPhase, advanced, observation, at).value.candidate;
    added := heard + timed;
    var f, g := FoundByOutput(gapped.candidate.monitors, observation, at),
        FoundBy(TimerPhase, read.candidate.monitors, observation, at);
    AppendsCompose(candidate.log, read.candidate.log, last.log, heard, timed);
    BalancesAdd(candidate.monitors, read.candidate.monitors, last.monitors, heard, timed, f, g);
    LeavesAdd(candidate.monitors, read.candidate.monitors, last.monitors, f, g, at.nowMs);
  }

  lemma PolledBalances(candidate: MonitorSet, observation: TerminalObservation, pollMatched: bool, at: Moment)
    returns (added: seq<MonitorEvent>)
    requires SetInv(candidate) && at.nowMs >= 0 && AfterScans(candidate, observation, at).Ok?
    requires AfterPoll(AfterScans(candidate, observation, at).value, pollMatched, at).Ok?
    ensures var timed := AfterScans(candidate, observation, at).value;
            var polled := AfterPoll(timed, pollMatched, at).value.candidate;
            var found := FoundByScans(candidate, observation, at)
                + FoundByPolling(timed.candidate.monitors, pollMatched, at);
            && SetInv(polled) && Appends(candidate.log, polled.log, added)
            && Balanced(candidate.monitors, polled.monitors, added, found)
            && AllLeftRightly(candidate.monitors, polled.monitors, found, at.nowMs)
    ensures |added| <= 3 * MAXIMUM_MONITORS
  {
    var scanned := ScansBalance(candidate, observation, at);
    var timed := AfterScans(candidate, observation, at).value;
    AfterPollKeeps(timed, pollMatched, at);
    var asked := PollStageBalances(timed, pollMatched, at);
    var polled := AfterPoll(timed, pollMatched, at).value;
    added := scanned + asked;
    var f, g := FoundByScans(candidate, observation, at), FoundByPolling(timed.candidate.monitors, pollMatched, at);
    AppendsCompose(candidate.log, timed.candidate.log, polled.candidate.log, scanned, asked);
    BalancesAdd(candidate.monitors, timed.candidate.monitors, polled.candidate.monitors, scanned, asked, f, g);
    LeavesAdd(candidate.monitors, timed.candidate.monitors, polled.candidate.monitors, f, g, at.nowMs);
  }

  /** Who finds a match in a whole evaluation. */
  function FoundByEvaluation(candidate: MonitorSet, observation: TerminalObservation, pollMatched: bool,
          nowMs: I64): set<Bytes>
    requires EvaluateAccepted(candidate, observation, pollMatched, nowMs).Ok?
  {
    var at := MomentOf(observation, nowMs);
    var timed := AfterScans(candidate, observation, at).value;
    var polled := AfterPoll(timed, pollMatched, at).value;
    FoundByScans(candidate, observation, at) + FoundByPolling(timed.candidate.monitors, pollMatched, at)
      + FoundByEnding(polled.candidate, observation, at)
  }

  lemma EvaluationBalances(candidate: MonitorSet, observation: TerminalObservation, pollMatched: bool, nowMs: I64)
    returns (added: seq<MonitorEvent>)
    requires SetInv(candidate) && nowMs >= 0 && EvaluateAccepted(candidate, observation, pollMatched, nowMs).Ok?
    ensures var after, found := EvaluateAccepted(candidate, observation, pollMatched, nowMs).value.candidate,
                                FoundByEvaluation(candidate, observation, pollMatched, nowMs);
            && Appends(candidate.log, after.log, added)
            && Balanced(candidate.monitors, after.monitors, added, found)
            && (if SeesTheEnd(candidate, observation.lifecycle) then after.monitors == []
                else AllLeftRightly(candidate.monitors, after.monitors, found, nowMs))
    ensures |added| <= 4 * MAXIMUM_MONITORS
  {
    var at := MomentOf(observation, nowMs);
    var asked := PolledBalances(candidate, observation, pollMatched, at);
    var timed := AfterScans(candidate, observation, at).value;
    var polled := AfterPoll(timed, pollMatched, at).value;
    LifecycleIsKept(candidate, observation, pollMatched, at);
    var ended := LifecycleStageBalances(polled, observation, at);
    var last := AfterLifecycle(polled, observation, at).value.candidate;
    added := asked + ended;
    var f := FoundByScans(candidate, observation, at) + FoundByPolling(timed.candidate.monitors, pollMatched, at);
    var g := FoundByEnding(polled.candidate, observation, at);
    AppendsCompose(candidate.log, polled.candidate.log, last.log, asked, ended);
    BalancesAdd(candidate.monitors, polled.candidate.monitors, last.monitors, asked, ended, f, g);
    if !SeesTheEnd(candidate, observation.lifecycle) {
      assert f + g == f;
    }
  }

  /** Only the last stage looks at, or changes, the lifecycle seen last. */
  lemma LifecycleIsKept(candidate: MonitorSet, observation: TerminalObservation, pollMatched: bool, at: Moment)
    requires AfterScans(candidate, observation, at).Ok?
             && AfterPoll(AfterScans(candidate, observation, at).value, pollMatched, at).Ok?
    ensures AfterPoll(AfterScans(candidate, observation, at).value, pollMatched, at).value.candidate.lastLifecycle
            == candidate.lastLifecycle
  {
  }
}
