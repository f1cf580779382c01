// One batch of tool calls: admission, execution with a parallel prefix of reads, deferral and
// cancellation. What tools, permissions and stores are is left open.

module ToolBatches {
  import opened Basics
  import opened Conversations

  /** Everything a tool may read or change, with the cancellation signal. */
  type World(!new)

  /** The permission engine and the approval handler. */
  type Permissions(!new)

  /** The store that large results are moved to. */
  type Results(!new)

  /** A tool at work: what an `execute` or `commit` future holds between two polls. */
  type Running(!new)

  type PermissionRequest(!new)

  type Failure(!new)

  /** The text of a tool result: a tool's or a provider's own words, or one of the fixed notices. */
  datatype Content =
    | Plain(text: string)
    | NoProviderResult
    | MalformedArguments
    | ToolCancelled
    | PermissionDenied
    | DeniedByUser
    | DeniedBySafetyReview
    | DeferredForNewRules
  {
    function Text(): string {
      match this
      case Plain(text) => text
      case NoProviderResult => "provider-executed tool returned no result"
      case MalformedArguments => "tool arguments were malformed JSON"
      case ToolCancelled => "tool was cancelled"
      case PermissionDenied => "tool permission denied"
      case DeniedByUser => "tool permission denied by user"
      case DeniedBySafetyReview => "tool permission denied by automatic safety review"
      case DeferredForNewRules =>
        "tool execution deferred because new scoped project instructions were loaded; "
        + "review the new rules and retry the action"
    }
  }

  datatype ToolOutput = ToolOutput(
    content: Content,
    isError: bool,
    structured: Option<string>,
    truncated: bool,
    durableContent: Option<string>
  )

  datatype Outcome = Outcome(output: ToolOutput, permissionFeedback: bool)

  datatype Decision = Allow | Ask | AutoReview | Deny

  datatype ReviewKind = ByUser | Automatic

  datatype Verdict = AllowOnce | AllowForSession | Refuse

  /** What a review leads to; the world may move on, and the run be cancelled, while it is awaited. */
  datatype Review = Review(world: World, permissions: Permissions, verdict: Result<Verdict, Failure>)

  datatype Preparation = Preparation(requests: seq<PermissionRequest>, work: Running)

  datatype Environment = Environment(
    validate: ToolCall -> Option<string>,
    isRead: ToolCall -> bool,
    targets: ToolCall -> set<string>,
    prepare: (World, ToolCall) -> Result<Preparation, string>,
    decide: (Permissions, PermissionRequest) -> Decision,
    review: (World, Permissions, ReviewKind, ToolCall) -> Review,
    grant: (Permissions, PermissionRequest) -> Permissions,
    cancelled: World -> bool,
    remaining: Running -> nat,
    advance: (World, Running) -> (World, Running),
    finish: (World, Running) -> (World, Result<ToolOutput, string>),
    finalize: (Results, ToolCall, ToolOutput) -> (Results, ToolOutput),
    harmless: Running -> bool
  ) {
    /** Work that is not done gets closer to being done whenever it advances. */
    ghost predicate Terminating() {
      forall w: World, r: Running | remaining(r) > 0 :: remaining(advance(w, r).1) < remaining(r)
    }

    /** Tools that declare a read effect leave the world as it is, at every step of their work. */
    ghost predicate ReadsChangeNothing() {
      && (forall w: World, call: ToolCall | IsParallelRead(this, call)
          && prepare(w, call).Ok? :: harmless(prepare(w, call).value.work))
      && (forall w: World, r: Running | harmless(r) :: advance(w, r).0 == w && harmless(advance(w, r).1))
      && (forall w: World, r: Running | harmless(r) :: finish(w, r).0 == w)
    }

    /** Nothing happens to the world, and so nothing is cancelled, while the review of a read is awaited. */
    ghost predicate ReviewsOfReadsWait() {
      forall w: World, s: Permissions, kind: ReviewKind, call: ToolCall | IsParallelRead(this, call) ::
          review(w, s, kind, call).world == w
    }

    ghost predicate Lawful() {
      Terminating() && ReadsChangeNothing() && ReviewsOfReadsWait()
    }
  }

  /** A local call with sound arguments to a tool that only reads. */
  predicate IsParallelRead(env: Environment, call: ToolCall) {
    call.provenance.FxLocal? && call.integrity.Valid? && env.validate(call).None? && env.isRead(call)
  }

  function ParallelReadPrefix(env: Environment, calls: seq<ToolCall>): (n: nat)
    ensures n <= |calls|
    ensures forall i: nat | i < n :: IsParallelRead(env, calls[i])
    ensures n < |calls| ==> !IsParallelRead(env, calls[n])
  {
    if calls == [] || !IsParallelRead(env, calls[0]) then 0 else 1 + ParallelReadPrefix(env, calls[1..])
  }

  // Outcomes.

  function ErrorOutput(content: Content): ToolOutput {
    ToolOutput(content, true, None, false, None)
  }

  function ErrorOutcome(content: Content): Outcome {
    Outcome(ErrorOutput(content), false)
  }

  function OutcomeOf(result: Result<ToolOutput, string>): Outcome {
    match result
    case Ok(output) => Outcome(output, false)
    case Err(text) => ErrorOutcome(Plain(text))
  }

  const CANCELLED: Outcome := ErrorOutcome(ToolCancelled)

  const DEFERRED: Outcome := ErrorOutcome(DeferredForNewRules)

  // Admission.

  /** An admitted call: settled already, not yet polled, or under way. */
  datatype Job = Immediate(outcome: Outcome) | Fresh(work: Running) | Underway(work: Running)

  function Decisions(env: Environment, s: Permissions, requests: seq<PermissionRequest>): (decisions: seq<Decision>)
    ensures |decisions| == |requests|
  {
    seq(|requests|, i requires 0 <= i < |requests| => env.decide(s, requests[i]))
  }

  /** Session grants for the requests that had to be asked about. */
  function Grants(env: Environment, s: Permissions, requests: seq<PermissionRequest>,
          decisions: seq<Decision>): Permissions
    requires |requests| == |decisions|
    decreases |requests|
  {
    if requests == [] then s
    else
      var next := if decisions[0].Ask? || decisions[0].AutoReview? then env.grant(s, requests[0]) else s;
      Grants(env, next, requests[1..], decisions[1..])
  }

  function Ready(env: Environment, w: World, preparation: Preparation): Job {
    if env.cancelled(w) then Immediate(CANCELLED) else Fresh(preparation.work)
  }

  datatype Admission<T> = Admission(world: World, permissions: Permissions, result: Result<T, Failure>)

  /** What the verdict of a review makes of a call. */
  function Reviewed(env: Environment, review: Review, kind: ReviewKind, preparation: Preparation,
          decisions: seq<Decision>): Admission<Job>
    requires |decisions| == |preparation.requests|
  {
    var w, s := review.world, review.permissions;
    match review.verdict
    case Err(failure) => Admission(w, s, Err(failure))
    case Ok(AllowOnce) => Admission(w, s, Ok(Ready(env, w, preparation)))
    case Ok(AllowForSession) =>
        Admission(w, Grants(env, s, preparation.requests, decisions), Ok(Ready(env, w, preparation)))
    case Ok(Refuse) =>
      Admission(w, s,
          Ok(Immediate(Outcome(ErrorOutput(if kind.ByUser? then DeniedByUser else DeniedBySafetyReview), true))))
  }

  /** `admit_local_tool`: the world and the permissions afterwards, and the job unless the approval handler failed. */
  function Admit(env: Environment, w: World, s: Permissions, call: ToolCall): Admission<Job> {
    if env.validate(call).Some? then Admission(w, s, Ok(Immediate(ErrorOutcome(Plain(env.validate(call).value)))))
    else match env.prepare(w, call)
      case Err(text) => Admission(w, s, Ok(Immediate(ErrorOutcome(Plain(text)))))
      case Ok(preparation) =>
        var decisions := Decisions(env, s, preparation.requests);
        if Deny in decisions then Admission(w, s, Ok(Immediate(Outcome(ErrorOutput(PermissionDenied), true))))
        else if Ask in decisions || AutoReview in decisions then
          var kind := if Ask in decisions then ByUser else Automatic;
          Reviewed(env, env.review(w, s, kind, call), kind, preparation, decisions)
        else Admission(w, s, Ok(Ready(env, w, preparation)))
  }

  // Running a job to its end.

  function Work(env: Environment, w: World, r: Running): (World, Outcome)
    requires env.Terminating()
    decreases env.remaining(r)
  {
    if env.remaining(r) == 0 then
      var (after, result) := env.finish(w, r);
      (after, OutcomeOf(result))
    else
      var (after, next) := env.advance(w, r);
      Work(env, after, next)
  }

  function Run(env: Environment, w: World, job: Job): (World, Outcome)
    requires env.Terminating()
  {
    match job
    case Immediate(outcome) => (w, outcome)
    case Fresh(work) => if env.cancelled(w) then (w, CANCELLED) else Work(env, w, work)
    case Underway(work) => Work(env, w, work)
  }

  predicate Harmless(env: Environment, job: Job) {
    job.Immediate? || env.harmless(job.work)
  }

  lemma {:induction false} HarmlessWork(env: Environment, w: World, r: Running)
    requires env.Lawful() && env.harmless(r)
    ensures Work(env, w, r).0 == w
    decreases env.remaining(r)
  {
    if env.remaining(r) > 0 {
      HarmlessWork(env, w, env.advance(w, r).1);
    }
  }

  // Polling a job.

  datatype Progress = Finished(outcome: Outcome) | Pending(job: Job)

  /** One poll: the work advances at most `quantum` steps, and settles if that reaches its end. */
  function Poll(env: Environment, w: World, job: Job, quantum: nat): (World, Progress)
    decreases quantum, job.Fresh?
  {
    match job
    case Immediate(outcome) => (w, Finished(outcome))
    case Fresh(work) => if env.cancelled(w) then (w, Finished(CANCELLED)) else Poll(env, w, Underway(work), quantum)
    case Underway(work) =>
      if quantum == 0 then (w, Pending(job))
      else if env.remaining(work) == 0 then
        var (after, result) := env.finish(w, work);
        (after, Finished(OutcomeOf(result)))
      else
        var (after, next) := env.advance(w, work);
        Poll(env, after, Underway(next), quantum - 1)
  }

  /** Polling harmless work leaves both the world and its eventual outcome as they are. */
  lemma {:induction false} PollKeepsOutcome(env: Environment, w: World, job: Job, quantum: nat)
    requires env.Lawful() && Harmless(env, job)
    ensures Poll(env, w, job, quantum).0 == w
    ensures match Poll(env, w, job, quantum).1
            case Finished(outcome) => outcome == Run(env, w, job).1
            case Pending(later) => Harmless(env, later) && Run(env, w, later).1 == Run(env, w, job).1
    decreases quantum, job.Fresh?
  {
    match job {
      case Immediate(_) =>
      case Fresh(work) =>
        if !env.cancelled(w) {
          PollKeepsOutcome(env, w, Underway(work), quantum);
        }
      case Underway(work) =>
        if quantum > 0 && env.remaining(work) > 0 {
          PollKeepsOutcome(env, w, Underway(env.advance(w, work).1), quantum - 1);
        }
    }
  }

  function Size(env: Environment, job: Job): nat {
    if job.Immediate? then 0 else env.remaining(job.work)
  }

  lemma {:induction false} PollAdvances(env: Environment, w: World, job: Job, quantum: nat)
    requires env.Terminating()
    ensures Poll(env, w, job, quantum).1.Pending?
            ==> Size(env, Poll(env, w, job, quantum).1.job) + quantum <= Size(env, job)
    decreases quantum, job.Fresh?
  {
    match job {
      case Immediate(_) =>
      case Fresh(work) =>
        PollAdvances(env, w, Underway(work), quantum);
      case Underway(work) =>
        if quantum > 0 && env.remaining(work) > 0 {
          var (after, next) := env.advance(w, work);
          PollAdvances(env, after, Underway(next), quantum - 1);
        }
    }
  }

  // The specification: one call at a time.

  /** What a batch works on; `started` and `done` are the events it has emitted, each kind in order. */
  datatype State = State(
    world: World,
    permissions: Permissions,
    results: Results,
    started: seq<ToolCall>,
    done: seq<(ToolCall, ToolOutput)>
  )

  function ProviderOutput(call: ToolCall): ToolOutput {
    var content := if call.providerResult.Some? then Plain(call.providerResult.value) else NoProviderResult;
    ToolOutput(content, false, None, false, None)
  }

  /** `execute_one_tool`. */
  function Execute(env: Environment, st: State, call: ToolCall): (State, Result<Outcome, Failure>)
    requires env.Terminating()
  {
    if call.provenance.Provider? then (st, Ok(Outcome(ProviderOutput(call), false)))
    else if call.integrity.MalformedJson? then (st, Ok(ErrorOutcome(MalformedArguments)))
    else
      var admission := Admit(env, st.world, st.permissions, call);
      match admission.result
      case Err(failure) => (st.(world := admission.world, permissions := admission.permissions), Err(failure))
      case Ok(job) =>
        var (world, outcome) := Run(env, admission.world, job);
        (st.(world := world, permissions := admission.permissions), Ok(outcome))
  }

  function Start(st: State, calls: seq<ToolCall>): State {
    st.(started := st.started + calls)
  }

  function Finish(env: Environment, st: State, call: ToolCall, outcome: Outcome): (State, Outcome) {
    var (results, output) := env.finalize(st.results, call, outcome.output);
    (st.(results := results, done := st.done + [(call, output)]), outcome.(output := output))
  }

  function Defer(st: State, call: ToolCall): State {
    st.(started := st.started + [call], done := st.done + [(call, DEFERRED.output)])
  }

  predicate IsDeferred(deferred: seq<bool>, index: nat) {
    index < |deferred| && deferred[index]
  }

  function Prepend(outcomes: seq<Outcome>, rest: Result<seq<Outcome>, Failure>): Result<seq<Outcome>, Failure> {
    match rest
    case Ok(more) => Ok(outcomes + more)
    case Err(failure) => Err(failure)
  }

  /** The calls from `index` on, each admitted, run and recorded before the next is looked at. */
  function Serial(env: Environment, st: State, calls: seq<ToolCall>, deferred: seq<bool>,
          index: nat): (State, Result<seq<Outcome>, Failure>)
    requires env.Terminating()
    decreases |calls| - index
  {
    if index >= |calls| then (st, Ok([]))
    else if env.cancelled(st.world) then (st, Ok(seq(|calls| - index, _ => CANCELLED)))
    else if IsDeferred(deferred, index) then
      var (last, rest) := Serial(env, Defer(st, calls[index]), calls, deferred, index + 1);
      (last, Prepend([DEFERRED], rest))
    else
      var (ran, outcome) := Execute(env, Start(st, [calls[index]]), calls[index]);
      match outcome
      case Err(failure) => (ran, Err(failure))
      case Ok(outcome) =>
        var (after, recorded) := Finish(env, ran, calls[index], outcome);
        var (last, rest) := Serial(env, after, calls, deferred, index + 1);
        (last, Prepend([recorded], rest))
  }

  // A batch of reads, in phases.

  function AdmitAll(env: Environment, w: World, s: Permissions, calls: seq<ToolCall>): (all: Admission<seq<Job>>)
    ensures all.result.Ok? ==> |all.result.value| == |calls|
    decreases |calls|
  {
    if calls == [] then Admission(w, s, Ok([]))
    else
      var first := Admit(env, w, s, calls[0]);
      match first.result
      case Err(failure) => Admission(first.world, first.permissions, Err(failure))
      case Ok(job) =>
        var rest := AdmitAll(env, first.world, first.permissions, calls[1..]);
        rest.(result := match rest.result case Ok(jobs) => Ok([job] + jobs) case Err(failure) => Err(failure))
  }

  function RunAll(env: Environment, w: World, jobs: seq<Job>): (outcomes: seq<Outcome>)
    requires env.Terminating()
    ensures |outcomes| == |jobs|
    ensures forall i: nat | i < |jobs| :: outcomes[i] == Run(env, w, jobs[i]).1
  {
    seq(|jobs|, i requires 0 <= i < |jobs| => Run(env, w, jobs[i]).1)
  }

  function FinishAll(env: Environment, st: State, calls: seq<ToolCall>,
          outcomes: seq<Outcome>): (r: (State, seq<Outcome>))
    requires |calls| == |outcomes|
    ensures |r.1| == |calls|
    decreases |calls|
  {
    if calls == [] then (st, [])
    else
      var (after, recorded) := Finish(env, st, calls[0], outcomes[0]);
      var (last, rest) := FinishAll(env, after, calls[1..], outcomes[1..]);
      (last, [recorded] + rest)
  }

  // Joining, in call order, whatever finishes first.

  /** A join under way: `remaining` counts the futures polled in this round that are not done. */
  datatype Polled = Polled(world: World, futures: seq<Option<Job>>, outputs: seq<Option<Outcome>>, remaining: nat)

  function PollSlot(env: Environment, p: Polled, index: nat, quantum: nat): (next: Polled)
    requires index < |p.futures| == |p.outputs|
    ensures |next.futures| == |next.outputs| == |p.futures|
  {
    if p.futures[index].None? then p
    else
      var (after, progress) := Poll(env, p.world, p.futures[index].value, quantum);
      match progress
      case Finished(outcome) => Polled(after, p.futures[index := None], p.outputs[index := Some(outcome)], p.remaining)
      case Pending(later) => Polled(after, p.futures[index := Some(later)], p.outputs, p.remaining + 1)
  }

  /** One call of the poll function, from slot `index` on: every unsettled future is polled once, in order. */
  function PollFrom(env: Environment, p: Polled, quanta: nat -> nat, index: nat): (next: Polled)
    requires |p.futures| == |p.outputs|
    ensures |next.futures| == |next.outputs| == |p.futures|
    decreases |p.futures| - index
  {
    if index >= |p.futures| then p else PollFrom(env, PollSlot(env, p, index, quanta(index)), quanta, index + 1)
  }

  /** When the executor wakes a join up: how many rounds, and how far each future gets in each. */
  datatype Schedule = Schedule(rounds: nat, quanta: nat -> nat -> nat) {
    /** How far the future `i` gets in the first `count` rounds. */
    ghost function Total(i: nat, count: nat): nat {
      if count == 0 then 0 else Total(i, count - 1) + quanta(count - 1)(i)
    }

    ghost predicate Completes(env: Environment, jobs: seq<Job>) {
      rounds > 0 && forall i: nat | i < |jobs| :: Total(i, rounds) > Size(env, jobs[i])
    }
  }

  predicate AllSettled(outputs: seq<Option<Outcome>>) {
    forall i: nat | i < |outputs| :: outputs[i].Some?
  }

  function Collect(outputs: seq<Option<Outcome>>): (outcomes: seq<Outcome>)
    requires AllSettled(outputs)
    ensures |outcomes| == |outputs| && forall i: nat | i < |outputs| :: Some(outcomes[i]) == outputs[i]
  {
    seq(|outputs|, i requires 0 <= i < |outputs| && outputs[i].Some? => outputs[i].value)
  }

  /** The rounds from `round` on; the join is over as soon as a round leaves no future behind. */
  function JoinFrom(env: Environment, w: World, futures: seq<Option<Job>>, outputs: seq<Option<Outcome>>,
          schedule: Schedule, round: nat):
      (joined: (World, Option<seq<Outcome>>))
    requires |futures| == |outputs|
    ensures joined.1.Some? ==> |joined.1.value| == |outputs|
    decreases schedule.rounds - round
  {
    if round >= schedule.rounds then (w, None)
    else
      var p := PollFrom(env, Polled(w, futures, outputs, 0), schedule.quanta(round), 0);
      if p.remaining == 0 && AllSettled(p.outputs) then (p.world, Some(Collect(p.outputs)))
      else JoinFrom(env, p.world, p.futures, p.outputs, schedule, round + 1)
  }

  function Launched(jobs: seq<Job>): (futures: seq<Option<Job>>)
    ensures |futures| == |jobs| && forall i: nat | i < |jobs| :: futures[i] == Some(jobs[i])
  {
    seq(|jobs|, i requires 0 <= i < |jobs| => Some(jobs[i]))
  }

  function Vacant(count: nat): (outputs: seq<Option<Outcome>>)
    ensures |outputs| == count && forall i: nat | i < count :: outputs[i] == None
  {
    seq(count, _ => None)
  }

  function Join(env: Environment, w: World, jobs: seq<Job>, schedule: Schedule): (joined: (World, Option<seq<Outcome>>))
    ensures joined.1.Some? ==> |joined.1.value| == |jobs|
  {
    JoinFrom(env, w, Launched(jobs), Vacant(|jobs|), schedule, 0)
  }

  method PollRound(env: Environment, w0: World, futures: array<Option<Job>>, outputs: array<Option<Outcome>>,
          quanta: nat -> nat)
    returns (w: World, remaining: nat)
    requires futures.Length == outputs.Length
    modifies futures, outputs
    ensures Polled(w, futures[..], outputs[..], remaining)
            == PollFrom(env, Polled(w0, old(futures[..]), old(outputs[..]), 0), quanta, 0)
  {
    w, remaining := w0, 0;
    for index := 0 to futures.Length
      invariant PollFrom(env, Polled(w0, old(futures[..]), old(outputs[..]), 0), quanta, 0)
             == PollFrom(env, Polled(w, futures[..], outputs[..], remaining), quanta, index)
    {
      ghost var p := Polled(w, futures[..], outputs[..], remaining);
      if futures[index].None? {
        assert PollSlot(env, p, index, quanta(index)) == p;
        continue;
      }
      var (after, progress) := Poll(env, w, futures[index].value, quanta(index));
      w := after;
      match progress {
        case Finished(outcome) =>
          outputs[index] := Some(outcome);
          futures[index] := None;
        case Pending(later) =>
          futures[index] := Some(later);
          remaining := remaining + 1;
      }
      assert PollSlot(env, p, index, quanta(index)) == Polled(w, futures[..], outputs[..], remaining);
    }
  }

  /** `join_ordered`, as far as the schedule drives it. */
  method JoinOrdered(env: Environment, w0: World, jobs: seq<Job>, schedule: Schedule)
    returns (w: World, outputs: Option<seq<Outcome>>)
    ensures (w, outputs) == Join(env, w0, jobs, schedule)
  {
    var futures := new Option<Job>[|jobs|](i requires 0 <= i < |jobs| => Some(jobs[i]));
    var slots := new Option<Outcome>[|jobs|](_ => None);
    w := w0;
    assert futures[..] == Launched(jobs) && slots[..] == Vacant(|jobs|);
    for round := 0 to schedule.rounds
      invariant Unsettled(futures[..], slots[..])
      invariant Join(env, w0, jobs, schedule) == JoinFrom(env, w, futures[..], slots[..], schedule, round)
    {
      var remaining;
      ghost var p := Polled(w, futures[..], slots[..], 0);
      w, remaining := PollRound(env, w, futures, slots, schedule.quanta(round));
      PollLeavesUnsettled(env, p, schedule.quanta(round), 0);
      if remaining == 0 {
        assert forall i: nat | i < slots.Length :: SettledIfGone(futures[..][i], slots[..][i]);
        var collected :=
            seq(|jobs|, i requires 0 <= i < |jobs| && slots.Length == |jobs|
            && slots[i].Some? reads slots => slots[i].value);
        assert collected == Collect(slots[..]);
        return w, Some(collected);
      }
    }
    outputs := None;
  }

  predicate SettledIfGone(future: Option<Job>, output: Option<Outcome>) {
    future.None? ==> output.Some?
  }

  /** Every slot still has its future, or its output already. */
  predicate Unsettled(futures: seq<Option<Job>>, outputs: seq<Option<Outcome>>) {
    |futures| == |outputs| && forall i: nat | i < |futures| :: SettledIfGone(futures[i], outputs[i])
  }

  /** A round that leaves nothing to do leaves nothing behind. */
  lemma {:induction false} PollLeavesUnsettled(env: Environment, p: Polled, quanta: nat -> nat, index: nat)
    requires Unsettled(p.futures, p.outputs)
    ensures var q := PollFrom(env, p, quanta, index);
            && Unsettled(q.futures, q.outputs) && p.remaining <= q.remaining
            && (forall i: nat | i < index && i < |p.futures| :: q.futures[i] == p.futures[i])
            && (q.remaining == p.remaining ==> forall i: nat | index <= i < |p.futures| :: q.futures[i].None?)
            && (q.remaining > p.remaining ==> exists i: nat :: index <= i < |p.futures| && q.futures[i].Some?)
    decreases |p.futures| - index
  {
    if index < |p.futures| {
      var next := PollSlot(env, p, index, quanta(index));
      PollLeavesUnsettled(env, next, quanta, index + 1);
      var q := PollFrom(env, next, quanta, index + 1);
      assert q.futures[index] == next.futures[index];
    }
  }

  // What a join comes to.

  ghost predicate AllHarmless(env: Environment, jobs: seq<Job>) {
    env.Lawful() && forall i: nat | i < |jobs| :: Harmless(env, jobs[i])
  }

  /** One slot of the join: still on its way to the outcome its job was bound for, or settled on it. */
  ghost predicate SlotKeeps(env: Environment, w: World, job: Job, future: Option<Job>, output: Option<Outcome>)
    requires env.Terminating()
  {
    if future.Some? then output.None? && Harmless(env, future.value)
        && Run(env, w, future.value).1 == Run(env, w, job).1
    else output.Some? && output.value == Run(env, w, job).1
  }

  ghost predicate SlotsKeep(env: Environment, w: World, jobs: seq<Job>, p: Polled)
    requires env.Terminating()
  {
    && |p.futures| == |p.outputs| == |jobs|
    && p.world == w
    && forall i: nat | i < |jobs| :: SlotKeeps(env, w, jobs[i], p.futures[i], p.outputs[i])
  }

  /** Polling harmless futures keeps every slot on course, and the world as it is. */
  lemma {:induction false} PollKeepsSlots(env: Environment, w: World, jobs: seq<Job>, p: Polled,
          quanta: nat -> nat, index: nat)
    requires env.Lawful() && SlotsKeep(env, w, jobs, p)
    ensures SlotsKeep(env, w, jobs, PollFrom(env, p, quanta, index))
    decreases |p.futures| - index
  {
    if index < |p.futures| {
      assert SlotKeeps(env, w, jobs[index], p.futures[index], p.outputs[index]);
      if p.futures[index].Some? {
        PollKeepsOutcome(env, w, p.futures[index].value, quanta(index));
      }
      PollKeepsSlots(env, w, jobs, PollSlot(env, p, index, quanta(index)), quanta, index + 1);
    }
  }

  /** A future that is still there after a poll has come as far as it was let. */
  ghost predicate Advanced(env: Environment, before: Option<Job>, after: Option<Job>, quantum: nat) {
    after.Some? ==> before.Some? && Size(env, after.value) + quantum <= Size(env, before.value)
  }

  lemma {:induction false} PollAdvancesAll(env: Environment, p: Polled, quanta: nat -> nat, index: nat)
    requires env.Terminating() && |p.futures| == |p.outputs|
    ensures var q := PollFrom(env, p, quanta, index);
            && (forall i: nat | i < index && i < |p.futures| :: q.futures[i] == p.futures[i])
            && forall i: nat | index <= i < |p.futures| :: Advanced(env, p.futures[i], q.futures[i], quanta(i))
    decreases |p.futures| - index
  {
    if index < |p.futures| {
      if p.futures[index].Some? {
        PollAdvances(env, p.world, p.futures[index].value, quanta(index));
      }
      var next := PollSlot(env, p, index, quanta(index));
      PollAdvancesAll(env, next, quanta, index + 1);
      var q := PollFrom(env, next, quanta, index + 1);
      assert q.futures[index] == next.futures[index];
    }
  }

  /** Every future has come as far as the first `round` rounds let it, and one at least is still there. */
  ghost predicate OnTheirWay(env: Environment, jobs: seq<Job>, futures: seq<Option<Job>>,
          schedule: Schedule, round: nat) {
    && |futures| == |jobs|
    && (forall i: nat | i < |jobs| :: Advanced(env, Some(jobs[i]), futures[i], schedule.Total(i, round)))
    && (round > 0 ==> exists i: nat :: i < |jobs| && futures[i].Some?)
  }

  /** A future still on its way means the schedule has rounds to go. */
  lemma RoundsRemain(env: Environment, jobs: seq<Job>, futures: seq<Option<Job>>, schedule: Schedule, round: nat)
    requires env.Terminating() && schedule.Completes(env, jobs) && round <= schedule.rounds
    requires OnTheirWay(env, jobs, futures, schedule, round)
    ensures round < schedule.rounds
  {
    if round > 0 {
      var i: nat :| i < |jobs| && futures[i].Some?;
      assert Advanced(env, Some(jobs[i]), futures[i], schedule.Total(i, round));
    }
  }

  lemma {:induction false} JoinCompletesFrom(env: Environment, jobs: seq<Job>, w: World, futures: seq<Option<Job>>,
          outputs: seq<Option<Outcome>>, schedule: Schedule, round: nat)
    requires env.Terminating() && schedule.Completes(env, jobs) && round <= schedule.rounds
    requires Unsettled(futures, outputs) && OnTheirWay(env, jobs, futures, schedule, round)
    ensures JoinFrom(env, w, futures, outputs, schedule, round).1.Some?
    decreases schedule.rounds - round
  {
    RoundsRemain(env, jobs, futures, schedule, round);
    var p := Polled(w, futures, outputs, 0);
    PollLeavesUnsettled(env, p, schedule.quanta(round), 0);
    PollAdvancesAll(env, p, schedule.quanta(round), 0);
    var q := PollFrom(env, p, schedule.quanta(round), 0);
    if q.remaining == 0 {
      assert forall i: nat | i < |q.outputs| :: SettledIfGone(q.futures[i], q.outputs[i]);
    } else {
      forall i: nat | i < |jobs| ensures Advanced(env, Some(jobs[i]), q.futures[i], schedule.Total(i, round + 1)) {
        assert Advanced(env, futures[i], q.futures[i], schedule.quanta(round)(i));
        assert Advanced(env, Some(jobs[i]), futures[i], schedule.Total(i, round));
      }
      JoinCompletesFrom(env, jobs, q.world, q.futures, q.outputs, schedule, round + 1);
    }
  }

  lemma {:induction false} JoinOfReadsFrom(env: Environment, w: World, jobs: seq<Job>, futures: seq<Option<Job>>,
          outputs: seq<Option<Outcome>>, schedule: Schedule, round: nat)
    requires env.Lawful() && SlotsKeep(env, w, jobs, Polled(w, futures, outputs, 0)) && Unsettled(futures, outputs)
    ensures var (end, outcomes) := JoinFrom(env, w, futures, outputs, schedule, round);
            end == w && (outcomes.Some? ==> outcomes.value == RunAll(env, w, jobs))
    decreases schedule.rounds - round
  {
    if round < schedule.rounds {
      var p := Polled(w, futures, outputs, 0);
      PollKeepsSlots(env, w, jobs, p, schedule.quanta(round), 0);
      PollLeavesUnsettled(env, p, schedule.quanta(round), 0);
      var q := PollFrom(env, p, schedule.quanta(round), 0);
      if q.remaining == 0 && AllSettled(q.outputs) {
        forall i: nat | i < |jobs| ensures Collect(q.outputs)[i] == Run(env, w, jobs[i]).1 {
          assert SlotKeeps(env, w, jobs[i], q.futures[i], q.outputs[i]) && Some(Collect(q.outputs)[i]) == q.outputs[i];
        }
      } else {
        assert SlotsKeep(env, w, jobs, Polled(w, q.futures, q.outputs, 0));
        JoinOfReadsFrom(env, w, jobs, q.futures, q.outputs, schedule, round + 1);
      }
    }
  }

  /** A schedule that gives every future the polls it needs brings the join to its end. */
  lemma JoinCompletes(env: Environment, w: World, jobs: seq<Job>, schedule: Schedule)
    requires env.Terminating() && schedule.Completes(env, jobs)
    ensures Join(env, w, jobs, schedule).1.Some?
  {
    JoinCompletesFrom(env, jobs, w, Launched(jobs), Vacant(|jobs|), schedule, 0);
  }

  /**
   * Under any schedule a join of harmless work leaves the world alone, and its outcomes are those of running one by
   * one, in call order.
   */
  lemma JoinOfReads(env: Environment, w: World, jobs: seq<Job>, schedule: Schedule)
    requires AllHarmless(env, jobs)
    ensures var (end, outcomes) := Join(env, w, jobs, schedule);
            end == w && (outcomes.Some? ==> outcomes.value == RunAll(env, w, jobs))
  {
    JoinOfReadsFrom(env, w, jobs, Launched(jobs), Vacant(|jobs|), schedule, 0);
  }

  /** The schedule that polls everything to its end in a single round. */
  function PatientSchedule(env: Environment, jobs: seq<Job>): (schedule: Schedule)
    ensures schedule.Completes(env, jobs)
  {
    var schedule := Schedule(1, _ => (i: nat) => if i < |jobs| then Size(env, jobs[i]) + 1 else 0);
    assert forall i: nat | i < |jobs| :: schedule.Total(i, 1) == schedule.Total(i, 0) + schedule.quanta(0)(i);
    schedule
  }
}
