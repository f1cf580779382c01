// Who may run: a denied call's tool never does, whatever it would do, and its outcome says so.

module Denials {
  import opened Basics
  import opened Conversations
  import opened ToolBatches
  import opened ToolExecution

  // What the permissions make of one call.

  /** A local call with sound arguments. */
  predicate IsSound(env: Environment, call: ToolCall) {
    call.provenance.FxLocal? && call.integrity.Valid? && env.validate(call).None?
  }

  /** Its tool got ready, and asks for permissions. */
  predicate IsPrepared(env: Environment, w: World, call: ToolCall) {
    IsSound(env, call) && env.prepare(w, call).Ok?
  }

  /** Some request of the call is decided that way. */
  ghost predicate AnyDecided(env: Environment, w: World, s: Permissions, call: ToolCall, decision: Decision)
    requires IsPrepared(env, w, call)
  {
    exists request :: request in env.prepare(w, call).value.requests && env.decide(s, request) == decision
  }

  ghost predicate NeedsReview(env: Environment, w: World, s: Permissions, call: ToolCall)
    requires IsPrepared(env, w, call)
  {
    AnyDecided(env, w, s, call, Ask) || AnyDecided(env, w, s, call, AutoReview)
  }

  /** The user is asked as soon as one request is the user's to decide. */
  ghost function Asked(env: Environment, w: World, s: Permissions, call: ToolCall): Review
    requires IsPrepared(env, w, call)
  {
    env.review(w, s, if AnyDecided(env, w, s, call, Ask) then ByUser else Automatic, call)
  }

  /** A request is denied outright, or the review that the requests need refuses. */
  ghost predicate IsDenied(env: Environment, w: World, s: Permissions, call: ToolCall) {
    && IsPrepared(env, w, call)
    && (|| AnyDecided(env, w, s, call, Deny)
        || (NeedsReview(env, w, s, call) && Asked(env, w, s, call).verdict == Ok(Refuse)))
  }

  ghost function Denial(env: Environment, w: World, s: Permissions, call: ToolCall): Content
    requires IsPrepared(env, w, call)
  {
    if AnyDecided(env, w, s, call, Deny) then PermissionDenied
    else if AnyDecided(env, w, s, call, Ask) then DeniedByUser
    else DeniedBySafetyReview
  }

  /** Nothing denied, a review where one is needed that allows it, and the run not cancelled by then. */
  ghost predicate MayRun(env: Environment, w: World, s: Permissions, call: ToolCall) {
    && IsPrepared(env, w, call)
    && !AnyDecided(env, w, s, call, Deny)
    && if NeedsReview(env, w, s, call) then
         var review := Asked(env, w, s, call);
         (review.verdict == Ok(AllowOnce) || review.verdict == Ok(AllowForSession)) && !env.cancelled(review.world)
       else !env.cancelled(w)
  }

  lemma DecidedSomewhere(env: Environment, w: World, s: Permissions, call: ToolCall, decision: Decision)
    requires IsPrepared(env, w, call)
    ensures decision in Decisions(env, s, env.prepare(w, call).value.requests)
            <==> AnyDecided(env, w, s, call, decision)
  {
    var requests := env.prepare(w, call).value.requests;
    var decisions := Decisions(env, s, requests);
    if decision in decisions {
      var i: nat :| i < |decisions| && decisions[i] == decision;
      assert requests[i] in requests;
    }
    if AnyDecided(env, w, s, call, decision) {
      var request :| request in requests && env.decide(s, request) == decision;
      var i: nat :| i < |requests| && requests[i] == request;
      assert decisions[i] == decision;
    }
  }

  /**
   * An admitted call goes to work exactly if it may, on what its tool prepared, and a denial is all a denied one
   * gets.
   */
  lemma AdmittedExactlyWhenAllowed(env: Environment, w: World, s: Permissions, call: ToolCall)
    requires call.provenance.FxLocal? && call.integrity.Valid?
    ensures var result := Admit(env, w, s, call).result;
            && ((result.Ok? && !result.value.Immediate?) <==> MayRun(env, w, s, call))
            && (MayRun(env, w, s, call) ==> result == Ok(Fresh(env.prepare(w, call).value.work)))
            && (IsDenied(env, w, s, call) ==>
                  result == Ok(Immediate(Outcome(ErrorOutput(Denial(env, w, s, call)), true))))
            && (result.Ok? && result.value.Immediate? && result.value.outcome.permissionFeedback ==>
                  IsDenied(env, w, s, call))
  {
    DecidedAnywhere(env, w, s, call);
  }

  /** Only a review moves the world or the permissions, and only its session-wide consent grants anything. */
  lemma AdmissionMovesNothingUnasked(env: Environment, w: World, s: Permissions, call: ToolCall)
    requires call.provenance.FxLocal? && call.integrity.Valid?
    ensures var admission := Admit(env, w, s, call);
            if IsPrepared(env, w, call) && !AnyDecided(env, w, s, call, Deny) && NeedsReview(env, w, s, call) then
              var review := Asked(env, w, s, call);
              && admission.world == review.world
              && (review.verdict != Ok(AllowForSession) ==> admission.permissions == review.permissions)
            else admission.world == w && admission.permissions == s
  {
    DecidedAnywhere(env, w, s, call);
  }

  lemma DecidedAnywhere(env: Environment, w: World, s: Permissions, call: ToolCall)
    ensures IsPrepared(env, w, call) ==>
            var decisions := Decisions(env, s, env.prepare(w, call).value.requests);
            && (Deny in decisions <==> AnyDecided(env, w, s, call, Deny))
            && (Ask in decisions <==> AnyDecided(env, w, s, call, Ask))
            && (AutoReview in decisions <==> AnyDecided(env, w, s, call, AutoReview))
  {
    if IsPrepared(env, w, call) {
      DecidedSomewhere(env, w, s, call, Deny);
      DecidedSomewhere(env, w, s, call, Ask);
      DecidedSomewhere(env, w, s, call, AutoReview);
    }
  }

  // When a call is reached.

  /** The world and the permissions in which a call of a parallel batch is admitted. */
  ghost function MomentAmong(env: Environment, w: World, s: Permissions, batch: seq<ToolCall>,
          i: nat): Option<(World, Permissions)>
    requires i < |batch|
    decreases i
  {
    if i == 0 then Some((w, s))
    else
      var first := Admit(env, w, s, batch[0]);
      if first.result.Err? then None else MomentAmong(env, first.world, first.permissions, batch[1..], i - 1)
  }

  /** The same for a call of the whole batch; None for one that is deferred or never reached. */
  ghost function Moment(env: Environment, st: State, calls: seq<ToolCall>, deferred: seq<bool>, scheduler: Scheduler,
          index: nat, i: nat): Option<(World, Permissions)>
    requires env.Terminating() && index <= i < |calls|
    decreases |calls| - index
  {
    if env.cancelled(st.world) then None
    else if IsDeferred(deferred, index) then
      if i == index then None
      else Moment(env, Defer(st, calls[index]), calls, deferred, scheduler, index + 1, i)
    else
      var next := index + ParallelReadPrefix(env, calls[index..]);
      if next >= index + 2 then
        var batch := calls[index..next];
        if i < next then MomentAmong(env, st.world, st.permissions, batch, i - index)
        else
          var (after, result) := ReadsTogether(env, st, batch, scheduler(st, batch));
          if result.Completed? then Moment(env, after, calls, deferred, scheduler, next, i) else None
      else if i == index then Some((st.world, st.permissions))
      else
        var (ran, outcome) := Execute(env, Start(st, [calls[index]]), calls[index]);
        if outcome.Err? then None
        else
          var (after, _) := Finish(env, ran, calls[index], outcome.value);
          Moment(env, after, calls, deferred, scheduler, index + 1, i)
  }

  lemma ParallelMoment(env: Environment, st: State, calls: seq<ToolCall>, deferred: seq<bool>, scheduler: Scheduler,
          index: nat, next: nat, after: State, result: BatchResult, i: nat)
    requires env.Terminating()
    requires index <= i < |calls| && !env.cancelled(st.world) && !IsDeferred(deferred, index)
    requires index + 2 <= next == index + ParallelReadPrefix(env, calls[index..])
    requires (after, result) == ReadsTogether(env, st, calls[index..next], scheduler(st, calls[index..next]))
    ensures Moment(env, st, calls, deferred, scheduler, index, i)
            == if i < next then MomentAmong(env, st.world, st.permissions, calls[index..next], i - index)
               else if result.Completed? then Moment(env, after, calls, deferred, scheduler, next, i)
               else None
  {
  }

  lemma SingleMoment(env: Environment, st: State, calls: seq<ToolCall>, deferred: seq<bool>, scheduler: Scheduler,
          index: nat, next: nat, ran: State, outcome: Outcome, after: State, recorded: Outcome, i: nat)
    requires env.Terminating()
    requires index < i < |calls| && next == index + 1 && !env.cancelled(st.world) && !IsDeferred(deferred, index)
    requires ParallelReadPrefix(env, calls[index..]) < 2
    requires Execute(env, Start(st, [calls[index]]), calls[index]) == (ran, Ok(outcome))
    requires Finish(env, ran, calls[index], outcome) == (after, recorded)
    ensures Moment(env, st, calls, deferred, scheduler, index, i)
            == Moment(env, after, calls, deferred, scheduler, next, i)
  {
  }

  // What its outcome says.

  /** Feedback exactly for a call denied at that moment, and then nothing but the denial. */
  ghost predicate Told(env: Environment, moment: Option<(World, Permissions)>, call: ToolCall, outcome: Outcome) {
    && (outcome.permissionFeedback <==> moment.Some? && IsDenied(env, moment.value.0, moment.value.1, call))
    && (outcome.permissionFeedback ==> outcome.output == ErrorOutput(Denial(env, moment.value.0, moment.value.1, call)))
  }

  /** The same once the outcome is finalised. */
  ghost predicate Answered(env: Environment, moment: Option<(World, Permissions)>, call: ToolCall, recorded: Outcome) {
    && (recorded.permissionFeedback <==> moment.Some? && IsDenied(env, moment.value.0, moment.value.1, call))
    && (recorded.permissionFeedback ==>
          exists results: Results ::
            recorded.output
            == env.finalize(results, call, ErrorOutput(Denial(env, moment.value.0, moment.value.1, call))).1)
  }

  /** A job that was settled at once keeps its outcome; work never claims to have been denied. */
  predicate Tells(job: Job, outcome: Outcome) {
    if job.Immediate? then outcome == job.outcome else !outcome.permissionFeedback
  }

  lemma {:induction false} WorkTells(env: Environment, w: World, r: Running)
    requires env.Terminating()
    ensures !Work(env, w, r).1.permissionFeedback
    decreases env.remaining(r)
  {
    if env.remaining(r) > 0 {
      var (after, next) := env.advance(w, r);
      WorkTells(env, after, next);
    }
  }

  lemma ExecutionTells(env: Environment, st: State, call: ToolCall)
    requires env.Terminating() && Execute(env, st, call).1.Ok?
    ensures Told(env, Some((st.world, st.permissions)), call, Execute(env, st, call).1.value)
  {
    if call.provenance.FxLocal? && call.integrity.Valid? {
      AdmittedExactlyWhenAllowed(env, st.world, st.permissions, call);
      var admission := Admit(env, st.world, st.permissions, call);
      if admission.result.Ok? && !admission.result.value.Immediate? {
        WorkTells(env, admission.world, admission.result.value.work);
      }
    }
  }

  // The same of a join, however it is scheduled and whatever the tools do to each other.

  predicate SlotTells(job: Job, future: Option<Job>, output: Option<Outcome>) {
    if future.Some? then (if job.Immediate? then future.value == job else !future.value.Immediate?)
    else output.Some? && Tells(job, output.value)
  }

  predicate SlotsTell(jobs: seq<Job>, futures: seq<Option<Job>>, outputs: seq<Option<Outcome>>) {
    |futures| == |outputs| == |jobs| && forall i: nat | i < |jobs| :: SlotTells(jobs[i], futures[i], outputs[i])
  }

  lemma {:induction false} PollTells(env: Environment, w: World, job: Job, quantum: nat)
    ensures match Poll(env, w, job, quantum).1
            case Finished(outcome) => Tells(job, outcome)
            case Pending(later) => !job.Immediate? && !later.Immediate?
    decreases quantum, job.Fresh?
  {
    match job {
      case Immediate(_) =>
      case Fresh(work) =>
        PollTells(env, w, Underway(work), quantum);
      case Underway(work) =>
        if quantum > 0 && env.remaining(work) > 0 {
          var (after, next) := env.advance(w, work);
          PollTells(env, after, Underway(next), quantum - 1);
        }
    }
  }

  lemma {:induction false} RoundTells(env: Environment, jobs: seq<Job>, p: Polled, quanta: nat -> nat, index: nat)
    requires SlotsTell(jobs, p.futures, p.outputs)
    ensures var q := PollFrom(env, p, quanta, index); SlotsTell(jobs, q.futures, q.outputs)
    decreases |p.futures| - index
  {
    if index < |p.futures| {
      if p.futures[index].Some? {
        PollTells(env, p.world, p.futures[index].value, quanta(index));
        assert SlotTells(jobs[index], p.futures[index], p.outputs[index]);
      }
      RoundTells(env, jobs, PollSlot(env, p, index, quanta(index)), quanta, index + 1);
    }
  }

  lemma {:induction false} JoinTells(env: Environment, w: World, jobs: seq<Job>, futures: seq<Option<Job>>,
          outputs: seq<Option<Outcome>>, schedule: Schedule, round: nat)
    requires SlotsTell(jobs, futures, outputs)
    ensures var outcomes := JoinFrom(env, w, futures, outputs, schedule, round).1;
            outcomes.Some? ==> |outcomes.value| == |jobs|
                               && forall i: nat | i < |jobs| :: Tells(jobs[i], outcomes.value[i])
    decreases schedule.rounds - round
  {
    if round < schedule.rounds {
      var p := Polled(w, futures, outputs, 0);
      RoundTells(env, jobs, p, schedule.quanta(round), 0);
      var q := PollFrom(env, p, schedule.quanta(round), 0);
      if q.remaining == 0 && AllSettled(q.outputs) {
        RoundLeavesNothing(env, jobs, p, q, schedule.quanta(round));
      } else {
        JoinTells(env, q.world, jobs, q.futures, q.outputs, schedule, round + 1);
      }
    }
  }

  lemma RoundLeavesNothing(env: Environment, jobs: seq<Job>, p: Polled, q: Polled, quanta: nat -> nat)
    requires SlotsTell(jobs, p.futures, p.outputs) && SlotsTell(jobs, q.futures, q.outputs)
    requires p.remaining == 0 && q == PollFrom(env, p, quanta, 0) && q.remaining == 0 && AllSettled(q.outputs)
    ensures forall i: nat | i < |jobs| :: Tells(jobs[i], Collect(q.outputs)[i])
  {
    forall i: nat | i < |p.futures| ensures SettledIfGone(p.futures[i], p.outputs[i]) {
      assert SlotTells(jobs[i], p.futures[i], p.outputs[i]);
    }
    PollLeavesUnsettled(env, p, quanta, 0);
    forall i: nat | i < |jobs| ensures Tells(jobs[i], Collect(q.outputs)[i]) {
      assert SlotTells(jobs[i], q.futures[i], q.outputs[i]) && Some(Collect(q.outputs)[i]) == q.outputs[i];
    }
  }

  lemma {:induction false} AdmissionsAmong(env: Environment, w: World, s: Permissions, batch: seq<ToolCall>, i: nat)
    requires AdmitAll(env, w, s, batch).result.Ok? && i < |batch|
    ensures var moment := MomentAmong(env, w, s, batch, i);
            && moment.Some?
            && Admit(env, moment.value.0, moment.value.1, batch[i]).result
               == Ok(AdmitAll(env, w, s, batch).result.value[i])
    decreases |batch|
  {
    if i > 0 {
      var first := Admit(env, w, s, batch[0]);
      AdmissionsAmong(env, first.world, first.permissions, batch[1..], i - 1);
    }
  }

  lemma {:induction false} RecordedAmong(env: Environment, st: State, batch: seq<ToolCall>, outcomes: seq<Outcome>,
          i: nat) returns (results: Results)
    requires |batch| == |outcomes| && i < |batch|
    ensures FinishAll(env, st, batch, outcomes).1[i]
            == outcomes[i].(output := env.finalize(results, batch[i], outcomes[i].output).1)
    decreases |batch|
  {
    if i == 0 {
      results := st.results;
    } else {
      var (after, _) := Finish(env, st, batch[0], outcomes[0]);
      results := RecordedAmong(env, after, batch[1..], outcomes[1..], i - 1);
    }
  }

  lemma JoinedTells(env: Environment, w: World, jobs: seq<Job>, schedule: Schedule)
    ensures var outcomes := Join(env, w, jobs, schedule).1;
            outcomes.Some? ==> forall i: nat | i < |jobs| :: Tells(jobs[i], outcomes.value[i])
  {
    JoinTells(env, w, jobs, Launched(jobs), Vacant(|jobs|), schedule, 0);
  }

  lemma ReadsAnswered(env: Environment, st: State, batch: seq<ToolCall>, schedule: Schedule, i: nat)
    requires i < |batch| && IsParallelRead(env, batch[i]) && ReadsTogether(env, st, batch, schedule).1.Completed?
    ensures Answered(env, MomentAmong(env, st.world, st.permissions, batch, i), batch[i],
                     ReadsTogether(env, st, batch, schedule).1.outcomes[i])
  {
    var all := AdmitAll(env, st.world, st.permissions, batch);
    var jobs := all.result.value;
    JoinedTells(env, all.world, jobs, schedule);
    var (world, completed) := Join(env, all.world, jobs, schedule);
    var outcomes := completed.value;
    AdmissionsAmong(env, st.world, st.permissions, batch, i);
    var moment := MomentAmong(env, st.world, st.permissions, batch, i);
    AdmittedExactlyWhenAllowed(env, moment.value.0, moment.value.1, batch[i]);
    assert Tells(jobs[i], outcomes[i]);
    assert Told(env, moment, batch[i], outcomes[i]);
    var joined := Start(st, batch).(permissions := all.permissions, world := world);
    var results := RecordedAmong(env, joined, batch, outcomes, i);
  }

  lemma SingleAnswered(env: Environment, st: State, call: ToolCall, ran: State, outcome: Outcome, after: State,
          recorded: Outcome)
    requires env.Terminating() && Execute(env, Start(st, [call]), call) == (ran, Ok(outcome))
    requires Finish(env, ran, call, outcome) == (after, recorded)
    ensures Answered(env, Some((st.world, st.permissions)), call, recorded)
  {
    ExecutionTells(env, Start(st, [call]), call);
    assert recorded.output == env.finalize(ran.results, call, outcome.output).1;
  }

  lemma {:induction false} DenialIsReportedFrom(env: Environment, st: State, calls: seq<ToolCall>, deferred: seq<bool>,
          scheduler: Scheduler, outcomes: seq<Outcome>, index: nat, i: nat)
    requires env.Terminating() && |outcomes| == index <= i < |calls|
    requires BatchFrom(env, st, calls, deferred, scheduler, outcomes, index).1.Completed?
    ensures var all := BatchFrom(env, st, calls, deferred, scheduler, outcomes, index).1.outcomes;
            |all| == |calls|
            && Answered(env, Moment(env, st, calls, deferred, scheduler, index, i), calls[i], all[i])
    decreases |calls| - index, 1
  {
    BatchAnswersAll(env, st, calls, deferred, scheduler, outcomes, index);
    if !env.cancelled(st.world) {
      if IsDeferred(deferred, index) {
        BatchAnswersAll(env, Defer(st, calls[index]), calls, deferred, scheduler, outcomes + [DEFERRED], index + 1);
        if i > index {
          DenialIsReportedFrom(env, Defer(st, calls[index]), calls, deferred, scheduler, outcomes + [DEFERRED],
              index + 1, i);
        }
      } else {
        var next := index + ParallelReadPrefix(env, calls[index..]);
        if next >= index + 2 {
          ParallelReported(env, st, calls, deferred, scheduler, outcomes, index, next, i);
        } else {
          SingleReported(env, st, calls, deferred, scheduler, outcomes, index, index + 1, i);
        }
      }
    }
  }

  lemma {:induction false} ParallelReported(env: Environment, st: State, calls: seq<ToolCall>, deferred: seq<bool>,
          scheduler: Scheduler, outcomes: seq<Outcome>, index: nat, next: nat, i: nat)
    requires env.Terminating() && |outcomes| == index <= i < |calls|
    requires !env.cancelled(st.world) && !IsDeferred(deferred, index)
    requires index + 2 <= next == index + ParallelReadPrefix(env, calls[index..])
    requires BatchFrom(env, st, calls, deferred, scheduler, outcomes, index).1.Completed?
    ensures var all := BatchFrom(env, st, calls, deferred, scheduler, outcomes, index).1.outcomes;
            |all| == |calls|
            && Answered(env, Moment(env, st, calls, deferred, scheduler, index, i), calls[i], all[i])
    decreases |calls| - index, 0
  {
    var batch := calls[index..next];
    var (after, result) := ReadsTogether(env, st, batch, scheduler(st, batch));
    ParallelStep(env, st, calls, deferred, scheduler, outcomes, index, next, after, result);
    ParallelMoment(env, st, calls, deferred, scheduler, index, next, after, result, i);
    if i < next {
      var place := i - index;
      assert batch[place] == calls[i] == calls[index..][place];
      ReadsAnswered(env, st, batch, scheduler(st, batch), place);
      BatchAnswersAll(env, after, calls, deferred, scheduler, outcomes + result.outcomes, next);
      assert (outcomes + result.outcomes)[i] == result.outcomes[place];
    } else {
      DenialIsReportedFrom(env, after, calls, deferred, scheduler, outcomes + result.outcomes, next, i);
    }
  }

  lemma {:induction false} SingleReported(env: Environment, st: State, calls: seq<ToolCall>, deferred: seq<bool>,
          scheduler: Scheduler, outcomes: seq<Outcome>, index: nat, next: nat, i: nat)
    requires env.Terminating() && |outcomes| == index <= i < |calls| && next == index + 1
    requires !env.cancelled(st.world) && !IsDeferred(deferred, index)
    requires ParallelReadPrefix(env, calls[index..]) < 2
    requires BatchFrom(env, st, calls, deferred, scheduler, outcomes, index).1.Completed?
    ensures var all := BatchFrom(env, st, calls, deferred, scheduler, outcomes, index).1.outcomes;
            |all| == |calls|
            && Answered(env, Moment(env, st, calls, deferred, scheduler, index, i), calls[i], all[i])
    decreases |calls| - index, 0
  {
    var (ran, outcome) := Execute(env, Start(st, [calls[index]]), calls[index]);
    var (after, recorded) := Finish(env, ran, calls[index], outcome.value);
    BatchAnswersAll(env, after, calls, deferred, scheduler, outcomes + [recorded], next);
    if i == index {
      SingleAnswered(env, st, calls[index], ran, outcome.value, after, recorded);
    } else {
      SingleMoment(env, st, calls, deferred, scheduler, index, next, ran, outcome.value, after, recorded, i);
      DenialIsReportedFrom(env, after, calls, deferred, scheduler, outcomes + [recorded], next, i);
    }
  }

  /**
   * An outcome of a batch carries permission feedback exactly if its call was denied, or refused by its review, when
   * it was reached; and then it is that denial.
   */
  lemma DenialIsReported(env: Environment, st: State, calls: seq<ToolCall>, deferred: seq<bool>, scheduler: Scheduler,
          i: nat)
    requires env.Terminating() && i < |calls| && Batch(env, st, calls, deferred, scheduler).1.Completed?
    ensures var outcomes := Batch(env, st, calls, deferred, scheduler).1.outcomes;
            |outcomes| == |calls|
            && Answered(env, Moment(env, st, calls, deferred, scheduler, 0, i), calls[i], outcomes[i])
  {
    DenialIsReportedFrom(env, st, calls, deferred, scheduler, [], 0, i);
  }

  // A tool that may not run never does: nobody can tell what its work would have been.

  /** The environments differ at most in what the tools do. */
  ghost predicate Alike(env1: Environment, env2: Environment) {
    env2 == env1.(prepare := env2.prepare)
  }

  /** The same permissions are asked for, and where the call may run it does the same. */
  ghost predicate SameIfRun(env1: Environment, env2: Environment, w: World, s: Permissions, call: ToolCall) {
    match (env1.prepare(w, call), env2.prepare(w, call))
    case (Ok(first), Ok(second)) => first.requests == second.requests && (MayRun(env1, w, s, call) ==> first == second)
    case (first, second) => first == second
  }

  ghost predicate SameAt(env1: Environment, env2: Environment, moment: Option<(World, Permissions)>, call: ToolCall) {
    moment.Some? && IsSound(env1, call) ==> SameIfRun(env1, env2, moment.value.0, moment.value.1, call)
  }

  lemma {:induction false} SamePrefix(env1: Environment, env2: Environment, calls: seq<ToolCall>)
    requires Alike(env1, env2)
    ensures ParallelReadPrefix(env1, calls) == ParallelReadPrefix(env2, calls)
  {
    if calls != [] {
      SamePrefix(env1, env2, calls[1..]);
    }
  }

  lemma {:induction false} SameGrants(env1: Environment, env2: Environment, s: Permissions,
          requests: seq<PermissionRequest>, decisions: seq<Decision>)
    requires Alike(env1, env2) && |requests| == |decisions|
    ensures Grants(env1, s, requests, decisions) == Grants(env2, s, requests, decisions)
    decreases |requests|
  {
    if requests != [] {
      SameGrants(env1, env2, if decisions[0].Ask?
          || decisions[0].AutoReview? then env1.grant(s, requests[0]) else s, requests[1..], decisions[1..]);
    }
  }

  lemma SameAdmission(env1: Environment, env2: Environment, w: World, s: Permissions, call: ToolCall)
    requires Alike(env1, env2) && call.provenance.FxLocal? && call.integrity.Valid?
    requires SameAt(env1, env2, Some((w, s)), call)
    ensures Admit(env1, w, s, call) == Admit(env2, w, s, call)
  {
    AdmittedExactlyWhenAllowed(env1, w, s, call);
    var prepared := env1.prepare(w, call);
    if IsPrepared(env1, w, call) {
      var requests := prepared.value.requests;
      assert Decisions(env1, s, requests) == Decisions(env2, s, requests);
      SameGrants(env1, env2, env1.review(w, s, ByUser, call).permissions, requests, Decisions(env1, s, requests));
      SameGrants(env1, env2, env1.review(w, s, Automatic, call).permissions, requests, Decisions(env1, s, requests));
    }
  }

  lemma {:induction false} SameWork(env1: Environment, env2: Environment, w: World, r: Running)
    requires env1.Terminating() && env2.Terminating() && Alike(env1, env2)
    ensures Work(env1, w, r) == Work(env2, w, r)
    decreases env1.remaining(r)
  {
    if env1.remaining(r) > 0 {
      var (after, next) := env1.advance(w, r);
      SameWork(env1, env2, after, next);
    }
  }

  lemma SameExecution(env1: Environment, env2: Environment, st: State, call: ToolCall)
    requires env1.Terminating() && env2.Terminating() && Alike(env1, env2)
    requires SameAt(env1, env2, Some((st.world, st.permissions)), call)
    ensures Execute(env1, st, call) == Execute(env2, st, call)
  {
    if call.provenance.FxLocal? && call.integrity.Valid? {
      SameAdmission(env1, env2, st.world, st.permissions, call);
      var admission := Admit(env1, st.world, st.permissions, call);
      if admission.result.Ok? && !admission.result.value.Immediate? {
        SameWork(env1, env2, admission.world, admission.result.value.work);
      }
    }
  }

  /** At no call of a parallel batch can the environments be told apart. */
  ghost predicate SameAmong(env1: Environment, env2: Environment, w: World, s: Permissions, batch: seq<ToolCall>) {
    forall i: nat | i < |batch| ::
        IsParallelRead(env1, batch[i]) && SameAt(env1, env2, MomentAmong(env1, w, s, batch, i), batch[i])
  }

  lemma {:induction false} SameAdmissions(env1: Environment, env2: Environment, w: World, s: Permissions,
          batch: seq<ToolCall>)
    requires Alike(env1, env2) && SameAmong(env1, env2, w, s, batch)
    ensures AdmitAll(env1, w, s, batch) == AdmitAll(env2, w, s, batch)
    decreases |batch|
  {
    if batch != [] {
      assert MomentAmong(env1, w, s, batch, 0) == Some((w, s));
      SameAdmission(env1, env2, w, s, batch[0]);
      var first := Admit(env1, w, s, batch[0]);
      if first.result.Ok? {
        forall i: nat | i < |batch[1..]|
          ensures IsParallelRead(env1, batch[1..][i])
          ensures SameAt(env1, env2, MomentAmong(env1, first.world, first.permissions, batch[1..], i), batch[1..][i])
        {
          assert batch[1..][i] == batch[i + 1];
          assert MomentAmong(env1, w, s, batch, i + 1)
                 == MomentAmong(env1, first.world, first.permissions, batch[1..], i);
        }
        SameAdmissions(env1, env2, first.world, first.permissions, batch[1..]);
      }
    }
  }

  lemma {:induction false} SamePoll(env1: Environment, env2: Environment, w: World, job: Job, quantum: nat)
    requires Alike(env1, env2)
    ensures Poll(env1, w, job, quantum) == Poll(env2, w, job, quantum)
    decreases quantum, job.Fresh?
  {
    match job {
      case Immediate(_) =>
      case Fresh(work) => SamePoll(env1, env2, w, Underway(work), quantum);
      case Underway(work) =>
        if quantum > 0 && env1.remaining(work) > 0 {
          var (after, next) := env1.advance(w, work);
          SamePoll(env1, env2, after, Underway(next), quantum - 1);
        }
    }
  }

  lemma {:induction false} SameRound(env1: Environment, env2: Environment, p: Polled, quanta: nat -> nat, index: nat)
    requires Alike(env1, env2) && |p.futures| == |p.outputs|
    ensures PollFrom(env1, p, quanta, index) == PollFrom(env2, p, quanta, index)
    decreases |p.futures| - index
  {
    if index < |p.futures| {
      if p.futures[index].Some? {
        SamePoll(env1, env2, p.world, p.futures[index].value, quanta(index));
      }
      SameRound(env1, env2, PollSlot(env1, p, index, quanta(index)), quanta, index + 1);
    }
  }

  lemma {:induction false} SameJoin(env1: Environment, env2: Environment, w: World, futures: seq<Option<Job>>,
          outputs: seq<Option<Outcome>>, schedule: Schedule, round: nat)
    requires Alike(env1, env2) && |futures| == |outputs|
    ensures JoinFrom(env1, w, futures, outputs, schedule, round) == JoinFrom(env2, w, futures, outputs, schedule, round)
    decreases schedule.rounds - round
  {
    if round < schedule.rounds {
      var p := Polled(w, futures, outputs, 0);
      SameRound(env1, env2, p, schedule.quanta(round), 0);
      var q := PollFrom(env1, p, schedule.quanta(round), 0);
      SameJoin(env1, env2, q.world, q.futures, q.outputs, schedule, round + 1);
    }
  }

  lemma {:induction false} SameFinish(env1: Environment, env2: Environment, st: State, calls: seq<ToolCall>,
          outcomes: seq<Outcome>)
    requires Alike(env1, env2) && |calls| == |outcomes|
    ensures FinishAll(env1, st, calls, outcomes) == FinishAll(env2, st, calls, outcomes)
    decreases |calls|
  {
    if calls != [] {
      SameFinish(env1, env2, Finish(env1, st, calls[0], outcomes[0]).0, calls[1..], outcomes[1..]);
    }
  }

  lemma SameReads(env1: Environment, env2: Environment, st: State, batch: seq<ToolCall>, schedule: Schedule)
    requires Alike(env1, env2) && SameAmong(env1, env2, st.world, st.permissions, batch)
    ensures ReadsTogether(env1, st, batch, schedule) == ReadsTogether(env2, st, batch, schedule)
  {
    SameAdmissions(env1, env2, st.world, st.permissions, batch);
    var all := AdmitAll(env1, st.world, st.permissions, batch);
    if all.result.Ok? {
      var jobs := all.result.value;
      SameJoin(env1, env2, all.world, Launched(jobs), Vacant(|jobs|), schedule, 0);
      var (world, completed) := Join(env1, all.world, jobs, schedule);
      if completed.Some? {
        SameFinish(env1, env2, Start(st, batch).(world := world, permissions := all.permissions), batch,
            completed.value);
      }
    }
  }

  /** At no call from `index` on can the environments be told apart. */
  ghost predicate SameWhereRun(env1: Environment, env2: Environment, st: State, calls: seq<ToolCall>,
          deferred: seq<bool>, scheduler: Scheduler, index: nat)
    requires env1.Terminating()
  {
    && Alike(env1, env2)
    && forall i: nat | index <= i < |calls| ::
         SameAt(env1, env2, Moment(env1, st, calls, deferred, scheduler, index, i), calls[i])
  }

  ghost predicate SameFrom(env1: Environment, env2: Environment, st: State, calls: seq<ToolCall>,
          deferred: seq<bool>, scheduler: Scheduler, outcomes: seq<Outcome>, index: nat)
    requires env1.Terminating() && env2.Terminating()
  {
    BatchFrom(env1, st, calls, deferred, scheduler, outcomes, index)
        == BatchFrom(env2, st, calls, deferred, scheduler, outcomes, index)
  }

  lemma {:induction false} DeniedToolsNeverRunFrom(env1: Environment, env2: Environment, st: State,
          calls: seq<ToolCall>, deferred: seq<bool>, scheduler: Scheduler, outcomes: seq<Outcome>, index: nat)
    requires env1.Terminating() && env2.Terminating()
    requires SameWhereRun(env1, env2, st, calls, deferred, scheduler, index)
    ensures SameFrom(env1, env2, st, calls, deferred, scheduler, outcomes, index)
    decreases |calls| - index, 1
  {
    if index < |calls| && !env1.cancelled(st.world) {
      if IsDeferred(deferred, index) {
        DeferralRunsSame(env1, env2, st, calls, deferred, scheduler, outcomes, index, index + 1);
      } else {
        SamePrefix(env1, env2, calls[index..]);
        var next := index + ParallelReadPrefix(env1, calls[index..]);
        if next >= index + 2 {
          ParallelRunsSame(env1, env2, st, calls, deferred, scheduler, outcomes, index, next);
        } else {
          SingleRunsSame(env1, env2, st, calls, deferred, scheduler, outcomes, index, index + 1);
        }
      }
    }
  }

  lemma {:induction false} DeferralRunsSame(env1: Environment, env2: Environment, st: State, calls: seq<ToolCall>,
          deferred: seq<bool>, scheduler: Scheduler, outcomes: seq<Outcome>, index: nat, next: nat)
    requires env1.Terminating() && env2.Terminating() && next == index + 1
    requires SameWhereRun(env1, env2, st, calls, deferred, scheduler, index)
    requires index < |calls| && !env1.cancelled(st.world) && IsDeferred(deferred, index)
    ensures SameFrom(env1, env2, st, calls, deferred, scheduler, outcomes, index)
    decreases |calls| - index, 0
  {
    var after := Defer(st, calls[index]);
    forall i: nat | next <= i < |calls|
      ensures SameAt(env1, env2, Moment(env1, after, calls, deferred, scheduler, next, i), calls[i])
    {
      assert SameAt(env1, env2, Moment(env1, st, calls, deferred, scheduler, index, i), calls[i]);
    }
    DeniedToolsNeverRunFrom(env1, env2, after, calls, deferred, scheduler, outcomes + [DEFERRED], next);
  }

  lemma {:induction false} ParallelRunsSame(env1: Environment, env2: Environment, st: State, calls: seq<ToolCall>,
          deferred: seq<bool>, scheduler: Scheduler, outcomes: seq<Outcome>, index: nat, next: nat)
    requires env1.Terminating() && env2.Terminating()
    requires SameWhereRun(env1, env2, st, calls, deferred, scheduler, index)
    requires index < |calls| && !env1.cancelled(st.world) && !IsDeferred(deferred, index)
    requires index + 2 <= next == index + ParallelReadPrefix(env1, calls[index..])
    ensures SameFrom(env1, env2, st, calls, deferred, scheduler, outcomes, index)
    decreases |calls| - index, 0
  {
    var batch := calls[index..next];
    var (after, result) := ReadsTogether(env1, st, batch, scheduler(st, batch));
    BatchLooksSame(env1, env2, st, calls, deferred, scheduler, index, next, batch, after, result);
    SamePrefix(env1, env2, calls[index..]);
    SameReads(env1, env2, st, batch, scheduler(st, batch));
    ParallelStep(env1, st, calls, deferred, scheduler, outcomes, index, next, after, result);
    ParallelStep(env2, st, calls, deferred, scheduler, outcomes, index, next, after, result);
    if result.Completed? {
      DeniedToolsNeverRunFrom(env1, env2, after, calls, deferred, scheduler, outcomes + result.outcomes, next);
    }
  }

  /** What looks the same from `index` on looks the same in the parallel batch, and after it. */
  lemma BatchLooksSame(env1: Environment, env2: Environment, st: State, calls: seq<ToolCall>, deferred: seq<bool>,
          scheduler: Scheduler, index: nat, next: nat, batch: seq<ToolCall>, after: State, result: BatchResult)
    requires env1.Terminating()
    requires SameWhereRun(env1, env2, st, calls, deferred, scheduler, index)
    requires index < |calls| && !env1.cancelled(st.world) && !IsDeferred(deferred, index)
    requires index + 2 <= next == index + ParallelReadPrefix(env1, calls[index..]) && batch == calls[index..next]
    requires (after, result) == ReadsTogether(env1, st, batch, scheduler(st, batch))
    ensures SameAmong(env1, env2, st.world, st.permissions, batch)
    ensures result.Completed? ==> SameWhereRun(env1, env2, after, calls, deferred, scheduler, next)
  {
    forall i: nat | i < |batch|
      ensures IsParallelRead(env1, batch[i])
      ensures SameAt(env1, env2, MomentAmong(env1, st.world, st.permissions, batch, i), batch[i])
    {
      assert batch[i] == calls[index + i] == calls[index..][i];
      ParallelMoment(env1, st, calls, deferred, scheduler, index, next, after, result, index + i);
      assert SameAt(env1, env2, Moment(env1, st, calls, deferred, scheduler, index, index + i), calls[index + i]);
    }
    forall i: nat | next <= i < |calls| && result.Completed?
      ensures SameAt(env1, env2, Moment(env1, after, calls, deferred, scheduler, next, i), calls[i])
    {
      ParallelMoment(env1, st, calls, deferred, scheduler, index, next, after, result, i);
      assert SameAt(env1, env2, Moment(env1, st, calls, deferred, scheduler, index, i), calls[i]);
    }
  }

  lemma {:induction false} SingleRunsSame(env1: Environment, env2: Environment, st: State, calls: seq<ToolCall>,
          deferred: seq<bool>, scheduler: Scheduler, outcomes: seq<Outcome>, index: nat, next: nat)
    requires env1.Terminating() && env2.Terminating() && next == index + 1
    requires SameWhereRun(env1, env2, st, calls, deferred, scheduler, index)
    requires index < |calls| && !env1.cancelled(st.world) && !IsDeferred(deferred, index)
    requires ParallelReadPrefix(env1, calls[index..]) < 2
    ensures SameFrom(env1, env2, st, calls, deferred, scheduler, outcomes, index)
    decreases |calls| - index, 0
  {
    assert SameAt(env1, env2, Moment(env1, st, calls, deferred, scheduler, index, index), calls[index]);
    var started := Start(st, [calls[index]]);
    SamePrefix(env1, env2, calls[index..]);
    SameExecution(env1, env2, started, calls[index]);
    var (ran, outcome) := Execute(env1, started, calls[index]);
    if outcome.Ok? {
      var (after, recorded) := Finish(env1, ran, calls[index], outcome.value);
      forall i: nat | next <= i < |calls|
        ensures SameAt(env1, env2, Moment(env1, after, calls, deferred, scheduler, next, i), calls[i])
      {
        SingleMoment(env1, st, calls, deferred, scheduler, index, next, ran, outcome.value, after, recorded, i);
        assert SameAt(env1, env2, Moment(env1, st, calls, deferred, scheduler, index, i), calls[i]);
      }
      DeniedToolsNeverRunFrom(env1, env2, after, calls, deferred, scheduler, outcomes + [recorded], next);
    }
  }

  /**
   * Replacing what any tool prepared, where its call is not reached, is denied or refused, or the run is cancelled by
   * then, changes nothing in the batch: neither the world nor the permissions, results, events and outcomes.
   */
  lemma DeniedToolsNeverRun(env1: Environment, env2: Environment, st: State, calls: seq<ToolCall>, deferred: seq<bool>,
          scheduler: Scheduler)
    requires env1.Terminating() && env2.Terminating()
    requires SameWhereRun(env1, env2, st, calls, deferred, scheduler, 0)
    ensures Batch(env1, st, calls, deferred, scheduler) == Batch(env2, st, calls, deferred, scheduler)
  {
    DeniedToolsNeverRunFrom(env1, env2, st, calls, deferred, scheduler, [], 0);
  }
}
