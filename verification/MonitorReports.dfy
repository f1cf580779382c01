// What a monitor says besides its match: checks, quiet periods, and the last words of a session.

module MonitorReports {
  import opened Basics
  import opened Schedule
  import opened Monitors
  import opened MonitorRuns
  import opened MonitorSets

  // Checks.

  /** How many of the first `count` checks call for a report. */
  function ReportsDue(notify: Notify, count: nat): nat {
    match notify
    case EveryCheck => count
    case EveryNChecks(every) => if every == 0 then 0 else count / every
    case _ => 0
  }

  lemma NextMultiple(count: nat, every: nat)
    requires 0 < every
    ensures (count + 1) / every == count / every + if (count + 1) % every == 0 then 1 else 0
  {
    var whole, rest := count / every, count % every;
    assert count + 1 == every * whole + (rest + 1);
    if rest + 1 == every {
      assert count + 1 == every * (whole + 1);
    }
    DivisionIsUnique(count + 1, every, if rest + 1 == every then whole + 1 else whole, if rest + 1 == every then 0
        else rest + 1);
  }

  lemma DivisionIsUnique(value: nat, divisor: nat, whole: nat, rest: nat)
    requires rest < divisor && value == divisor * whole + rest
    ensures value / divisor == whole && value % divisor == rest
  {
    var other, left := value / divisor, value % divisor;
    assert value == divisor * other + left;
    MultiplesAreApart(divisor, other, whole);
    MultiplesAreApart(divisor, whole, other);
  }

  lemma MultiplesAreApart(divisor: nat, a: nat, b: nat)
    ensures a < b ==> divisor * a + divisor <= divisor * b
  {
    assert a < b ==> (b - a - 1) * divisor >= 0;
  }

  lemma CheckReportedInStep(monitor: Monitor, call: Call)
    requires Apply(monitor, call).Ok?
    ensures var (next, decision) := Apply(monitor, call).value;
            && next.definition == monitor.definition
            && (decision.notify == Some(Check) ==> next.runtime.checkCount == monitor.runtime.checkCount + 1)
            && ReportsDue(monitor.definition.notify, next.runtime.checkCount)
               == ReportsDue(monitor.definition.notify, monitor.runtime.checkCount) + if decision.notify
                   == Some(Check) then 1 else 0
  {
    if monitor.definition.notify.EveryNChecks? && monitor.definition.notify.count > 0 {
      NextMultiple(monitor.runtime.checkCount, monitor.definition.notify.count);
    }
  }

  /** Over any calls, exactly the checks whose number is due are reported: every one, or every n-th. */
  lemma {:induction false} ChecksAreReported(monitor: Monitor, calls: seq<Call>)
    requires Run(monitor, calls).Ok?
    ensures var (last, decisions) := Run(monitor, calls).value;
            && last.definition == monitor.definition
            && Count(decisions, Check)
               == ReportsDue(monitor.definition.notify, last.runtime.checkCount) - ReportsDue(monitor.definition.notify,
                   monitor.runtime.checkCount)
    decreases |calls|
  {
    if calls != [] {
      var (next, decision) := Apply(monitor, calls[0]).value;
      CheckReportedInStep(monitor, calls[0]);
      ChecksAreReported(next, calls[1..]);
      var (_, decisions) := Run(next, calls[1..]).value;
      assert ([decision] + decisions)[1..] == decisions;
    }
  }

  // Quiet periods.

  /** A call restarts the quiet period: output, a reported quiet, or waking from a pause. */
  predicate Stirs(monitor: Monitor, call: Call) {
    match call
    case NoteOutput(_) => true
    case Resume(_) => monitor.runtime.state == Paused
    case Observe(observation, _, nowMs) => observation == QuietElapsed && !monitor.Inert() && !monitor.ExpiredAt(nowMs)
    case _ => false
  }

  /** When the quiet period last began, if it began at `since`. */
  function LastStirred(monitor: Monitor, calls: seq<Call>, since: int): int
    decreases |calls|
  {
    if calls == [] || Apply(monitor, calls[0]).Err? then since
    else LastStirred(Apply(monitor, calls[0]).value.0, calls[1..], if Stirs(monitor, calls[0])
        then calls[0].nowMs else since)
  }

  predicate QuietSince(monitor: Monitor, since: int) {
    && monitor.definition.condition.OutputQuiet?
    && monitor.definition.checkIntervalMs.None?
    && monitor.runtime.nextCheckMs.Some?
    && monitor.runtime.nextCheckMs.value == since + monitor.definition.condition.durationMs
  }

  /**
   * While nothing is lost, quiet is due exactly when the monitor is awake and nothing has stirred for the whole
   * duration.
   */
  lemma {:induction false} QuietMeansQuiet(monitor: Monitor, calls: seq<Call>, since: int, nowMs: I64)
    requires QuietSince(monitor, since) && Run(monitor, calls).Ok?
    requires Degrade !in calls
    ensures var last, stirred := Run(monitor, calls).value.0, LastStirred(monitor, calls, since);
            && last.definition == monitor.definition
            && QuietSince(last, stirred)
            && (last.QuietDue(nowMs) <==> last.runtime.state != Paused
                                          && nowMs >= stirred + last.definition.condition.durationMs)
    decreases |calls|
  {
    if calls != [] {
      var next := Apply(monitor, calls[0]).value.0;
      QuietMeansQuiet(next, calls[1..], if Stirs(monitor, calls[0]) then calls[0].nowMs else since, nowMs);
    }
  }

  /** Counting from its installation. */
  lemma QuietSinceInstalled(monitorId: Bytes, definition: Definition, installedMs: I64, calls: seq<Call>, nowMs: I64)
    requires definition.condition.OutputQuiet? && NewMonitor(monitorId, definition, installedMs).Ok?
    requires Run(NewMonitor(monitorId, definition, installedMs).value, calls).Ok? && Degrade !in calls
    ensures var monitor := NewMonitor(monitorId, definition, installedMs).value;
            var last := Run(monitor, calls).value.0;
            last.QuietDue(nowMs) <==>
              last.runtime.state != Paused && nowMs >= LastStirred(monitor, calls, installedMs)
                  + definition.condition.durationMs
  {
    QuietMeansQuiet(NewMonitor(monitorId, definition, installedMs).value, calls, installedMs, nowMs);
  }

  // Polling.

  /**
   * A poll that is accepted puts the next one at the first tick of its interval after now, counted from when this one
   * was due; nothing else moves it.
   */
  lemma PollKeepsItsBeat(monitor: Monitor, observation: Observation, matches: bool, nowMs: I64, tick: int)
    requires monitor.Listens(nowMs) && 0 <= nowMs && observation != SessionExitSeen
    requires monitor.definition.checkIntervalMs.Some? && ValidSchedule(monitor.definition.checkIntervalMs.value)
    requires !monitor.definition.condition.OutputQuiet?
    requires monitor.runtime.nextCheckMs.Some? && 0 <= monitor.runtime.nextCheckMs.value
    requires FirstTickAfter(monitor.runtime.nextCheckMs.value, monitor.definition.checkIntervalMs.value, nowMs, tick)
    requires monitor.Observe(observation, matches, nowMs).Ok?
    ensures monitor.Observe(observation, matches, nowMs).value.0.runtime.nextCheckMs
            == Some(if observation == CheckRun then tick else monitor.runtime.nextCheckMs.value)
  {
    var due, interval := monitor.runtime.nextCheckMs.value, monitor.definition.checkIntervalMs.value;
    if due <= nowMs {
      StepCountFitsExactlyWhen(due, interval, nowMs);
    }
    AdvanceFindsFirstTick(due, interval, nowMs);
  }

  // Removal.

  /** A call asks for removal only at the end of a lifetime, of the session, or of the wait for a match. */
  lemma RemovalIsJustified(monitor: Monitor, call: Call)
    requires Apply(monitor, call).Ok?
    ensures var (next, decision) := Apply(monitor, call).value;
            decision.remove <==>
              || (call.Timer? && monitor.ExpiredAt(call.nowMs))
              || (call.Observe? && !monitor.Inert()
                    && (|| monitor.ExpiredAt(call.nowMs)
                        || call.observation == SessionExitSeen
                        || (monitor.definition.lifetime == UntilMatch && next.runtime.conditionMatched
                            && !monitor.runtime.conditionMatched)))
  {
  }

  // Last words.

  /** The session ended the way the condition waits for, which was not seen before. */
  predicate ExitIsNews(monitor: Monitor, exitCode: Option<int>, signal: Option<Signal>, lifecycle: Lifecycle) {
    && lifecycle == Exited
    && !monitor.runtime.conditionMatched
    && match monitor.definition.condition
       case ProcessExit => true
       case ExitCode(expected) => exitCode == Some(expected)
       case SignalIs(expected) => signal == Some(expected)
       case _ => false
  }

  /**
   * A listening monitor's last words: the exit it waited for, the end of the session, or nothing; a paused or
   * degraded one has none.
   */
  lemma LastWords(monitor: Monitor, exitCode: Option<int>, signal: Option<Signal>, at: Moment)
    requires EndDecision(monitor, exitCode, signal, at).Ok?
    ensures var notify := EndDecision(monitor, exitCode, signal, at).value.1.notify;
            && (monitor.Inert() ==> notify == None)
            && (monitor.Listens(at.nowMs) && monitor.definition.notify == OnMatch ==>
                  notify == if ExitIsNews(monitor, exitCode, signal, at.lifecycle)
                      then Some(ConditionMatched) else None)
            && (monitor.Listens(at.nowMs) && monitor.definition.notify == OnStateChange ==>
                  notify == if ExitIsNews(monitor, exitCode, signal, at.lifecycle) then Some(StateChanged) else None)
            && (monitor.Listens(at.nowMs) && monitor.definition.notify == OnExit ==>
                  notify == if monitor.runtime.lastEventReason == Some(SessionExit) then None else Some(SessionExit))
  {
  }
}
