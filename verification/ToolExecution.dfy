// The batch loop itself, and its refinement: reads run side by side, and nobody can tell.

module ToolExecution {
  import opened Basics
  import opened Conversations
  import opened ToolBatches

  /** No call that may run in a parallel prefix is deferred. */
  predicate SparesReads(env: Environment, calls: seq<ToolCall>, deferred: seq<bool>) {
    forall i: nat | i < |calls| && IsDeferred(deferred, i) :: !IsParallelRead(env, calls[i])
  }

  // What the loop does.

  /** How a batch ends: with an outcome for every call, with the approval handler's failure, or not yet. */
  datatype BatchResult = Completed(outcomes: seq<Outcome>) | Failed(failure: Failure) | StillPolling

  function ResultOf(result: Result<seq<Outcome>, Failure>): BatchResult {
    match result
    case Ok(outcomes) => Completed(outcomes)
    case Err(failure) => Failed(failure)
  }

  /** How the executor drives the join of a batch of reads; it may depend on everything there is. */
  type Scheduler = (State, seq<ToolCall>) -> Schedule

  /** The parallel branch: start all, admit all in order, join them, finish all in order. */
  function ReadsTogether(env: Environment, st: State, batch: seq<ToolCall>,
          schedule: Schedule): (r: (State, BatchResult))
    ensures r.1.Completed? ==> |r.1.outcomes| == |batch|
  {
    var all := AdmitAll(env, st.world, st.permissions, batch);
    var admitted := Start(st, batch).(world := all.world, permissions := all.permissions);
    match all.result
    case Err(failure) => (admitted, Failed(failure))
    case Ok(jobs) =>
      var (world, completed) := Join(env, all.world, jobs, schedule);
      var joined := admitted.(world := world);
      match completed
      case None => (joined, StillPolling)
      case Some(outcomes) =>
        var (after, recorded) := FinishAll(env, joined, batch, outcomes);
        (after, Completed(recorded))
  }

  /** The batch loop from call `index` on, with the outcomes so far. */
  function BatchFrom(env: Environment, st: State, calls: seq<ToolCall>, deferred: seq<bool>, scheduler: Scheduler,
                     outcomes: seq<Outcome>, index: nat): (State, BatchResult)
    requires env.Terminating()
    decreases |calls| - index
  {
    if index >= |calls| then (st, Completed(outcomes))
    else if env.cancelled(st.world) then (st, Completed(outcomes + seq(|calls| - index, _ => CANCELLED)))
    else if IsDeferred(deferred, index) then
      BatchFrom(env, Defer(st, calls[index]), calls, deferred, scheduler, outcomes + [DEFERRED], index + 1)
    else
      var n := ParallelReadPrefix(env, calls[index..]);
      if n >= 2 then
        var batch := calls[index..index + n];
        var (after, result) := ReadsTogether(env, st, batch, scheduler(st, batch));
        if result.Completed?
            then BatchFrom(env, after, calls, deferred, scheduler, outcomes + result.outcomes, index + n)
        else (after, result)
      else
        var (ran, outcome) := Execute(env, Start(st, [calls[index]]), calls[index]);
        match outcome
        case Err(failure) => (ran, Failed(failure))
        case Ok(outcome) =>
          var (after, recorded) := Finish(env, ran, calls[index], outcome);
          BatchFrom(env, after, calls, deferred, scheduler, outcomes + [recorded], index + 1)
  }

  /** `execute_tool_batch`. */
  function Batch(env: Environment, st: State, calls: seq<ToolCall>, deferred: seq<bool>,
          scheduler: Scheduler): (State, BatchResult)
    requires env.Terminating()
  {
    BatchFrom(env, st, calls, deferred, scheduler, [], 0)
  }

  /** What one parallel round of the loop does, whose reads end before call `next`. */
  lemma ParallelStep(env: Environment, st: State, calls: seq<ToolCall>, deferred: seq<bool>, scheduler: Scheduler,
          outcomes: seq<Outcome>, index: nat, next: nat, after: State, result: BatchResult)
    requires env.Terminating()
    requires index < |calls| && !env.cancelled(st.world) && !IsDeferred(deferred, index)
    requires index + 2 <= next == index + ParallelReadPrefix(env, calls[index..])
    requires (after, result) == ReadsTogether(env, st, calls[index..next], scheduler(st, calls[index..next]))
    ensures BatchFrom(env, st, calls, deferred, scheduler, outcomes, index)
            == if result.Completed?
                then BatchFrom(env, after, calls, deferred, scheduler, outcomes + result.outcomes, next)
               else (after, result)
  {
  }

  // The loops.

  function PrependJobs(jobs: seq<Job>, rest: Admission<seq<Job>>): Admission<seq<Job>> {
    match rest.result
    case Ok(more) => rest.(result := Ok(jobs + more))
    case Err(_) => rest
  }

  lemma PrependJob(jobs: seq<Job>, job: Job, rest: Admission<seq<Job>>)
    ensures PrependJobs(jobs, PrependJobs([job], rest)) == PrependJobs(jobs + [job], rest)
  {
    if rest.result.Ok? {
      assert jobs + ([job] + rest.result.value) == (jobs + [job]) + rest.result.value;
    }
  }

  /** The admissions of one parallel batch, in call order. */
  method AdmitBatch(env: Environment, w: World, s: Permissions, batch: seq<ToolCall>) returns (all: Admission<seq<Job>>)
    ensures all == AdmitAll(env, w, s, batch)
  {
    var world, permissions := w, s;
    var admitted: seq<Job> := [];
    ghost var whole := AdmitAll(env, w, s, batch).result;
    assert batch[0..] == batch && (whole.Ok? ==> [] + whole.value == whole.value);
    for i := 0 to |batch|
      invariant AdmitAll(env, w, s, batch) == PrependJobs(admitted, AdmitAll(env, world, permissions, batch[i..]))
    {
      assert batch[i..][1..] == batch[i + 1..];
      var next := Admit(env, world, permissions, batch[i]);
      world, permissions := next.world, next.permissions;
      match next.result {
        case Err(failure) =>
          return Admission(world, permissions, Err(failure));
        case Ok(job) =>
          PrependJob(admitted, job, AdmitAll(env, world, permissions, batch[i + 1..]));
          admitted := admitted + [job];
      }
    }
    assert admitted + [] == admitted;
    all := Admission(world, permissions, Ok(admitted));
  }

  method FinishBatch(env: Environment, st: State, batch: seq<ToolCall>, completed: seq<Outcome>)
    returns (after: State, recorded: seq<Outcome>)
    requires |batch| == |completed|
    ensures (after, recorded) == FinishAll(env, st, batch, completed)
  {
    after, recorded := st, [];
    assert batch[0..] == batch && completed[0..] == completed;
    assert [] + FinishAll(env, st, batch, completed).1 == FinishAll(env, st, batch, completed).1;
    for i := 0 to |batch|
      invariant FinishAll(env, st, batch, completed)
             == (var (last, rest) := FinishAll(env, after, batch[i..], completed[i..]); (last, recorded + rest))
    {
      assert batch[i..][1..] == batch[i + 1..] && completed[i..][1..] == completed[i + 1..];
      var (next, outcome) := Finish(env, after, batch[i], completed[i]);
      ghost var rest := FinishAll(env, next, batch[i + 1..], completed[i + 1..]).1;
      assert recorded + ([outcome] + rest) == (recorded + [outcome]) + rest;
      after, recorded := next, recorded + [outcome];
    }
    assert recorded + [] == recorded;
  }

  method ExecuteReads(env: Environment, st: State, batch: seq<ToolCall>, schedule: Schedule)
    returns (after: State, result: BatchResult)
    ensures (after, result) == ReadsTogether(env, st, batch, schedule)
  {
    after := Start(st, batch);
    var all := AdmitBatch(env, after.world, after.permissions, batch);
    after := after.(world := all.world, permissions := all.permissions);
    if all.result.Err? {
      return after, Failed(all.result.error);
    }
    var world, completed := JoinOrdered(env, after.world, all.result.value, schedule);
    after := after.(world := world);
    if completed.None? {
      return after, StillPolling;
    }
    var recorded;
    after, recorded := FinishBatch(env, after, batch, completed.value);
    result := Completed(recorded);
  }

  method ExecuteToolBatch(env: Environment, st0: State, calls: seq<ToolCall>, deferred: seq<bool>, scheduler: Scheduler)
    returns (st: State, result: BatchResult)
    requires env.Terminating()
    ensures (st, result) == Batch(env, st0, calls, deferred, scheduler)
  {
    st := st0;
    var outcomes: seq<Outcome> := [];
    var index := 0;
    while index < |calls|
      invariant Batch(env, st0, calls, deferred, scheduler)
                == BatchFrom(env, st, calls, deferred, scheduler, outcomes, index)
    {
      if env.cancelled(st.world) {
        return st, Completed(outcomes + seq(|calls| - index, _ => CANCELLED));
      }
      if IsDeferred(deferred, index) {
        st, outcomes, index := Defer(st, calls[index]), outcomes + [DEFERRED], index + 1;
        continue;
      }
      var parallelLen := ParallelReadPrefix(env, calls[index..]);
      if parallelLen >= 2 {
        var next := index + parallelLen;
        var batch := calls[index..next];
        var after;
        after, result := ExecuteReads(env, st, batch, scheduler(st, batch));
        ParallelStep(env, st, calls, deferred, scheduler, outcomes, index, next, after, result);
        if !result.Completed? {
          return after, result;
        }
        st, outcomes, index := after, outcomes + result.outcomes, next;
        continue;
      }
      var (ran, executed) := Execute(env, Start(st, [calls[index]]), calls[index]);
      if executed.Err? {
        return ran, Failed(executed.error);
      }
      var (finished, recorded) := Finish(env, ran, calls[index], executed.value);
      st, outcomes, index := finished, outcomes + [recorded], index + 1;
    }
    result := Completed(outcomes);
  }

  // An outcome for every call, in its place.

  /** The outcomes so far stay, and every call gets one. */
  lemma {:induction false} BatchAnswersAll(env: Environment, st: State, calls: seq<ToolCall>, deferred: seq<bool>,
          scheduler: Scheduler, outcomes: seq<Outcome>, index: nat)
    requires env.Terminating() && |outcomes| == index <= |calls|
    ensures var result := BatchFrom(env, st, calls, deferred, scheduler, outcomes, index).1;
            result.Completed? ==> |result.outcomes| == |calls| && outcomes <= result.outcomes
    decreases |calls| - index
  {
    if index < |calls| && !env.cancelled(st.world) {
      if IsDeferred(deferred, index) {
        BatchAnswersAll(env, Defer(st, calls[index]), calls, deferred, scheduler, outcomes + [DEFERRED], index + 1);
      } else {
        var n := ParallelReadPrefix(env, calls[index..]);
        if n >= 2 {
          var next := index + n;
          var (after, result) := ReadsTogether(env, st, calls[index..next], scheduler(st, calls[index..next]));
          ParallelStep(env, st, calls, deferred, scheduler, outcomes, index, next, after, result);
          if result.Completed? {
            BatchAnswersAll(env, after, calls, deferred, scheduler, outcomes + result.outcomes, next);
          }
        } else {
          var (ran, outcome) := Execute(env, Start(st, [calls[index]]), calls[index]);
          if outcome.Ok? {
            var (after, recorded) := Finish(env, ran, calls[index], outcome.value);
            BatchAnswersAll(env, after, calls, deferred, scheduler, outcomes + [recorded], index + 1);
          }
        }
      }
    }
  }

  // Schedules that see every batch through.

  /** The executor drives every join to its end. */
  ghost predicate Generous(env: Environment, scheduler: Scheduler) {
    forall st: State, batch: seq<ToolCall> :: SeesThrough(env, st, batch, scheduler(st, batch))
  }

  ghost predicate SeesThrough(env: Environment, st: State, batch: seq<ToolCall>, schedule: Schedule) {
    var jobs := AdmitAll(env, st.world, st.permissions, batch).result;
    jobs.Ok? ==> schedule.Completes(env, jobs.value)
  }

  /** Whatever the environment, some scheduler is generous: work that ends can be waited for. */
  lemma SomeSchedulerIsGenerous(env: Environment) returns (scheduler: Scheduler)
    ensures Generous(env, scheduler)
  {
    scheduler := (st: State, batch: seq<ToolCall>) =>
      var jobs := AdmitAll(env, st.world, st.permissions, batch).result;
      PatientSchedule(env, if jobs.Ok? then jobs.value else []);
  }

  lemma {:induction false} GenerousBatchEnds(env: Environment, st: State, calls: seq<ToolCall>, deferred: seq<bool>,
          scheduler: Scheduler, outcomes: seq<Outcome>, index: nat)
    requires env.Terminating() && Generous(env, scheduler)
    ensures !BatchFrom(env, st, calls, deferred, scheduler, outcomes, index).1.StillPolling?
    decreases |calls| - index
  {
    if index < |calls| && !env.cancelled(st.world) {
      if IsDeferred(deferred, index) {
        GenerousBatchEnds(env, Defer(st, calls[index]), calls, deferred, scheduler, outcomes + [DEFERRED], index + 1);
      } else {
        var n := ParallelReadPrefix(env, calls[index..]);
        if n >= 2 {
          var next := index + n;
          var batch := calls[index..next];
          assert SeesThrough(env, st, batch, scheduler(st, batch));
          var all := AdmitAll(env, st.world, st.permissions, batch);
          if all.result.Ok? {
            JoinCompletes(env, all.world, all.result.value, scheduler(st, batch));
          }
          var (after, result) := ReadsTogether(env, st, batch, scheduler(st, batch));
          ParallelStep(env, st, calls, deferred, scheduler, outcomes, index, next, after, result);
          if result.Completed? {
            GenerousBatchEnds(env, after, calls, deferred, scheduler, outcomes + result.outcomes, next);
          }
        } else {
          var (ran, outcome) := Execute(env, Start(st, [calls[index]]), calls[index]);
          if outcome.Ok? {
            var (after, recorded) := Finish(env, ran, calls[index], outcome.value);
            GenerousBatchEnds(env, after, calls, deferred, scheduler, outcomes + [recorded], index + 1);
          }
        }
      }
    }
  }

  // Reads side by side are reads one by one.

  lemma ReadIsHarmless(env: Environment, w: World, s: Permissions, call: ToolCall)
    requires env.Lawful() && IsParallelRead(env, call)
    ensures Admit(env, w, s, call).world == w
    ensures Admit(env, w, s, call).result.Ok? ==> Harmless(env, Admit(env, w, s, call).result.value)
  {
  }

  lemma HarmlessRun(env: Environment, w: World, job: Job)
    requires env.Lawful() && Harmless(env, job)
    ensures Run(env, w, job).0 == w
  {
    if !job.Immediate? {
      HarmlessWork(env, w, job.work);
    }
  }

  lemma PrependNothing(rest: Result<seq<Outcome>, Failure>)
    ensures Prepend([], rest) == rest
  {
    if rest.Ok? {
      assert [] + rest.value == rest.value;
    }
  }

  lemma PrependTwice(first: seq<Outcome>, second: seq<Outcome>, rest: Result<seq<Outcome>, Failure>)
    ensures Prepend(first, Prepend(second, rest)) == Prepend(first + second, rest)
  {
    if rest.Ok? {
      assert first + (second + rest.value) == (first + second) + rest.value;
    }
  }

  /** A batch of reads in phases: start all, admit all in order, run all, finish all in order. */
  ghost function Phased(env: Environment, st: State, batch: seq<ToolCall>): (State, Result<seq<Outcome>, Failure>)
    requires env.Terminating()
  {
    var all := AdmitAll(env, st.world, st.permissions, batch);
    var admitted := Start(st, batch).(permissions := all.permissions);
    match all.result
    case Err(failure) => (admitted, Err(failure))
    case Ok(jobs) =>
      var (last, outcomes) := FinishAll(env, admitted, batch, RunAll(env, st.world, jobs));
      (last, Ok(outcomes))
  }

  lemma {:induction false} ReadsAdmitHarmless(env: Environment, w: World, s: Permissions, batch: seq<ToolCall>)
    requires env.Lawful() && forall i: nat | i < |batch| :: IsParallelRead(env, batch[i])
    ensures AdmitAll(env, w, s, batch).world == w
    ensures AdmitAll(env, w, s, batch).result.Ok? ==> AllHarmless(env, AdmitAll(env, w, s, batch).result.value)
    decreases |batch|
  {
    if batch != [] {
      ReadIsHarmless(env, w, s, batch[0]);
      ReadsAdmitHarmless(env, w, Admit(env, w, s, batch[0]).permissions, batch[1..]);
    }
  }

  /** The join of reads comes to running them all, whatever the schedule. */
  lemma ReadsTogetherArePhased(env: Environment, st: State, batch: seq<ToolCall>, schedule: Schedule)
    requires env.Lawful() && forall i: nat | i < |batch| :: IsParallelRead(env, batch[i])
    ensures var (after, result) := ReadsTogether(env, st, batch, schedule);
            !result.StillPolling? ==> (after, result) == (Phased(env, st, batch).0, ResultOf(Phased(env, st, batch).1))
  {
    ReadsAdmitHarmless(env, st.world, st.permissions, batch);
    var all := AdmitAll(env, st.world, st.permissions, batch);
    if all.result.Ok? {
      JoinOfReads(env, st.world, all.result.value, schedule);
    }
  }

  /** What is left of the phases once the first call has been taken through all of them. */
  lemma PhasedStep(env: Environment, st: State, batch: seq<ToolCall>, job: Job, after: State, recorded: Outcome)
    requires env.Terminating() && batch != []
    requires var admission := Admit(env, st.world, st.permissions, batch[0]);
             && admission.world == st.world && admission.result == Ok(job)
             && (after, recorded)
                 == Finish(env, Start(st, [batch[0]]).(permissions := admission.permissions), batch[0],
                 Run(env, st.world, job).1)
    ensures var (whole, outcomes) := Phased(env, st, batch);
            var (last, rest) := Phased(env, after, batch[1..]);
            && whole.world == last.world
            && whole.permissions == last.permissions
            && outcomes == Prepend([recorded], rest)
            && (rest.Ok? ==> whole == last)
  {
    var rest := AdmitAll(env, st.world, after.permissions, batch[1..]);
    if rest.result.Ok? {
      var outcomes := RunAll(env, st.world, [job] + rest.result.value);
      assert outcomes[1..] == RunAll(env, st.world, rest.result.value);
      var admitted := Start(st, batch).(permissions := rest.permissions);
      assert st.started + batch == (st.started + [batch[0]]) + batch[1..];
      assert Finish(env, admitted, batch[0], outcomes[0])
             == (Start(after, batch[1..]).(permissions := rest.permissions), recorded);
    }
  }

  /** Taking reads through the phases together comes to the same as taking them one after another. */
  lemma {:induction false} PhasesAreSerial(env: Environment, st: State, calls: seq<ToolCall>, deferred: seq<bool>,
          index: nat, n: nat)
    requires env.Lawful() && index + n <= |calls| && (n > 0 ==> !env.cancelled(st.world))
    requires forall i: nat | index <= i < index + n :: IsParallelRead(env, calls[i]) && !IsDeferred(deferred, i)
    ensures var (phased, recorded) := Phased(env, st, calls[index..index + n]);
            var (last, outcomes) := Serial(env, st, calls, deferred, index);
            match recorded
            case Err(failure) => outcomes == Err(failure) && last.world == phased.world
                && last.permissions == phased.permissions
            case Ok(recorded) =>
              var (end, rest) := Serial(env, phased, calls, deferred, index + n);
              last == end && outcomes == Prepend(recorded, rest)
    decreases n
  {
    var batch := calls[index..index + n];
    if n == 0 {
      assert batch == [];
      assert st.started + batch == st.started;
      PrependNothing(Serial(env, st, calls, deferred, index).1);
    } else {
      var call := calls[index];
      assert batch[0] == call && batch[1..] == calls[index + 1..index + 1 + (n - 1)];
      ReadIsHarmless(env, st.world, st.permissions, call);
      var admission := Admit(env, st.world, st.permissions, call);
      if admission.result.Ok? {
        var job := admission.result.value;
        HarmlessRun(env, st.world, job);
        var ran := Start(st, [call]).(permissions := admission.permissions);
        var (after, recorded) := Finish(env, ran, call, Run(env, st.world, job).1);
        PhasedStep(env, st, batch, job, after, recorded);
        PhasesAreSerial(env, after, calls, deferred, index + 1, n - 1);
        var (last, rest) := Phased(env, after, batch[1..]);
        if rest.Ok? {
          PrependTwice([recorded], rest.value, Serial(env, last, calls, deferred, index + n).1);
        }
      }
    }
  }

  /** The end of a batch is the end of the serial run, up to events when it failed. */
  ghost predicate SameEnd(end: State, result: BatchResult, last: State, expected: Result<seq<Outcome>, Failure>) {
    && result == ResultOf(expected)
    && end.world == last.world
    && end.permissions == last.permissions
    && (result.Completed? ==> end == last)
  }

  /**
   * The outcome of every call, in call order, the permissions and the world, as if the calls had been run one by one.
   */
  ghost predicate MatchesSerial(env: Environment, st0: State, calls: seq<ToolCall>, deferred: seq<bool>, st: State,
          result: BatchResult)
    requires env.Terminating()
  {
    var (last, expected) := Serial(env, st0, calls, deferred, 0);
    SameEnd(st, result, last, expected)
  }

  /** The parallel branch from `index` on. */
  lemma ReadsAreSerial(env: Environment, st: State, calls: seq<ToolCall>, deferred: seq<bool>, schedule: Schedule,
          index: nat, n: nat)
    requires env.Lawful() && SparesReads(env, calls, deferred) && !env.cancelled(st.world)
    requires 0 < n && index + n <= |calls| && forall i: nat | index <= i < index + n :: IsParallelRead(env, calls[i])
    ensures var (after, result) := ReadsTogether(env, st, calls[index..index + n], schedule);
            var (last, expected) := Serial(env, st, calls, deferred, index);
            match result
            case StillPolling => true
            case Failed(failure) => expected == Err(failure) && last.world == after.world
                && last.permissions == after.permissions
            case Completed(outcomes) =>
              var (end, rest) := Serial(env, after, calls, deferred, index + n);
              last == end && expected == Prepend(outcomes, rest)
  {
    var batch := calls[index..index + n];
    assert forall i: nat | i < n :: batch[i] == calls[index + i];
    ReadsTogetherArePhased(env, st, batch, schedule);
    PhasesAreSerial(env, st, calls, deferred, index, n);
  }

  /** What is done and what is left of the loop come to what is done and what is left serially. */
  ghost predicate SerialFrom(env: Environment, st: State, calls: seq<ToolCall>, deferred: seq<bool>,
          scheduler: Scheduler, outcomes: seq<Outcome>, index: nat)
    requires env.Terminating()
  {
    var (end, result) := BatchFrom(env, st, calls, deferred, scheduler, outcomes, index);
    var (last, rest) := Serial(env, st, calls, deferred, index);
    !result.StillPolling? ==> SameEnd(end, result, last, Prepend(outcomes, rest))
  }

  lemma DeferralIsSerial(env: Environment, st: State, calls: seq<ToolCall>, deferred: seq<bool>, scheduler: Scheduler,
                         outcomes: seq<Outcome>, index: nat)
    requires env.Terminating() && index < |calls| && !env.cancelled(st.world) && IsDeferred(deferred, index)
    requires SerialFrom(env, Defer(st, calls[index]), calls, deferred, scheduler, outcomes + [DEFERRED], index + 1)
    ensures SerialFrom(env, st, calls, deferred, scheduler, outcomes, index)
  {
    PrependTwice(outcomes, [DEFERRED], Serial(env, Defer(st, calls[index]), calls, deferred, index + 1).1);
  }

  /** A call run by itself, as the loop and as the specification see it. */
  lemma SingleIsSerial(env: Environment, st: State, calls: seq<ToolCall>, deferred: seq<bool>, scheduler: Scheduler,
                       outcomes: seq<Outcome>, index: nat)
    requires env.Terminating() && index < |calls| && !env.cancelled(st.world) && !IsDeferred(deferred, index)
    requires ParallelReadPrefix(env, calls[index..]) < 2
    requires var (ran, outcome) := Execute(env, Start(st, [calls[index]]), calls[index]);
             outcome.Ok? ==>
               var (after, recorded) := Finish(env, ran, calls[index], outcome.value);
               SerialFrom(env, after, calls, deferred, scheduler, outcomes + [recorded], index + 1)
    ensures SerialFrom(env, st, calls, deferred, scheduler, outcomes, index)
  {
    var (ran, outcome) := Execute(env, Start(st, [calls[index]]), calls[index]);
    if outcome.Ok? {
      var (after, recorded) := Finish(env, ran, calls[index], outcome.value);
      PrependTwice(outcomes, [recorded], Serial(env, after, calls, deferred, index + 1).1);
    }
  }

  lemma ReadsExtend(env: Environment, st: State, calls: seq<ToolCall>, deferred: seq<bool>, scheduler: Scheduler,
                    outcomes: seq<Outcome>, index: nat, next: nat, after: State, result: BatchResult)
    requires env.Lawful() && SparesReads(env, calls, deferred)
    requires index < |calls| && !env.cancelled(st.world) && !IsDeferred(deferred, index)
    requires index + 2 <= next == index + ParallelReadPrefix(env, calls[index..])
    requires (after, result) == ReadsTogether(env, st, calls[index..next], scheduler(st, calls[index..next]))
    requires result.Completed? ==> SerialFrom(env, after, calls, deferred, scheduler, outcomes + result.outcomes, next)
    ensures SerialFrom(env, st, calls, deferred, scheduler, outcomes, index)
  {
    assert forall i: nat | index <= i < next :: calls[i] == calls[index..][i - index];
    ReadsAreSerial(env, st, calls, deferred, scheduler(st, calls[index..next]), index, next - index);
    ParallelStep(env, st, calls, deferred, scheduler, outcomes, index, next, after, result);
    if result.Completed? {
      PrependTwice(outcomes, result.outcomes, Serial(env, after, calls, deferred, next).1);
    }
  }

  lemma {:induction false} BatchIsSerialFrom(env: Environment, st: State, calls: seq<ToolCall>, deferred: seq<bool>,
          scheduler: Scheduler, outcomes: seq<Outcome>, index: nat)
    requires env.Lawful() && SparesReads(env, calls, deferred)
    ensures SerialFrom(env, st, calls, deferred, scheduler, outcomes, index)
    decreases |calls| - index
  {
    if index >= |calls| {
      assert outcomes + [] == outcomes;
    } else if !env.cancelled(st.world) {
      if IsDeferred(deferred, index) {
        BatchIsSerialFrom(env, Defer(st, calls[index]), calls, deferred, scheduler, outcomes + [DEFERRED], index + 1);
        DeferralIsSerial(env, st, calls, deferred, scheduler, outcomes, index);
      } else {
        var n := ParallelReadPrefix(env, calls[index..]);
        if n >= 2 {
          var next := index + n;
          var (after, result) := ReadsTogether(env, st, calls[index..next], scheduler(st, calls[index..next]));
          if result.Completed? {
            BatchIsSerialFrom(env, after, calls, deferred, scheduler, outcomes + result.outcomes, next);
          }
          ReadsExtend(env, st, calls, deferred, scheduler, outcomes, index, next, after, result);
        } else {
          var (ran, outcome) := Execute(env, Start(st, [calls[index]]), calls[index]);
          if outcome.Ok? {
            var (after, recorded) := Finish(env, ran, calls[index], outcome.value);
            BatchIsSerialFrom(env, after, calls, deferred, scheduler, outcomes + [recorded], index + 1);
          }
          SingleIsSerial(env, st, calls, deferred, scheduler, outcomes, index);
        }
      }
    }
  }

  /** What `execute_tool_batch` is for. */
  lemma BatchMatchesSerial(env: Environment, st: State, calls: seq<ToolCall>, deferred: seq<bool>, scheduler: Scheduler)
    requires env.Lawful() && SparesReads(env, calls, deferred)
    ensures var (end, result) := Batch(env, st, calls, deferred, scheduler);
            !result.StillPolling? ==> MatchesSerial(env, st, calls, deferred, end, result)
  {
    BatchIsSerialFrom(env, st, calls, deferred, scheduler, [], 0);
    PrependNothing(Serial(env, st, calls, deferred, 0).1);
  }
}
