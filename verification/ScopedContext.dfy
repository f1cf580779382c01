// Project instructions that a batch's targets bring in: which calls wait for the model to have
// seen them, and that those calls touch nothing.

module ScopedContext {
  import opened Basics
  import opened Conversations
  import opened ToolBatches
  import opened ToolExecution
  import opened Denials

  /**
   * A provider of project instructions: what is new for these targets, if anything, and what it now counts as
   * delivered.
   */
  type Provider = (World, set<string>) -> (World, Result<Option<string>, Failure>)

  datatype Selection = Selection(delta: Option<string>, deferred: seq<bool>)

  /** A sound local call whose tool names targets. */
  predicate HasTargets(env: Environment, call: ToolCall) {
    call.provenance.FxLocal? && call.integrity.Valid? && env.validate(call).None? && env.targets(call) != {}
  }

  predicate IsSensitive(env: Environment, call: ToolCall) {
    HasTargets(env, call) && !env.isRead(call)
  }

  function AllTargets(env: Environment, calls: seq<ToolCall>): set<string>
    decreases |calls|
  {
    if calls == [] then {}
    else AllTargets(env, calls[..|calls| - 1])
         + (if HasTargets(env, calls[|calls| - 1]) then env.targets(calls[|calls| - 1]) else {})
  }

  lemma TargetsSoFar(env: Environment, calls: seq<ToolCall>, index: nat)
    requires index < |calls|
    ensures AllTargets(env, calls[..index + 1])
            == AllTargets(env, calls[..index])
                + (if HasTargets(env, calls[index]) then env.targets(calls[index]) else {})
  {
    assert calls[..index + 1][..index] == calls[..index];
  }

  function Marks(env: Environment, calls: seq<ToolCall>, mark: bool): (marks: seq<bool>)
    ensures |marks| == |calls|
    ensures forall i: nat | i < |calls| :: marks[i] == (mark && IsSensitive(env, calls[i]))
  {
    seq(|calls|, i requires 0 <= i < |calls| => mark && IsSensitive(env, calls[i]))
  }

  /**
   * What the selection is for: ask once, about all targets; if there is news, hold back every sensitive call and no
   * other.
   */
  function Select(env: Environment, provider: Option<Provider>, w: World,
          calls: seq<ToolCall>): (World, Result<Selection, Failure>) {
    var targets := AllTargets(env, calls);
    if provider.None? || targets == {} then (w, Ok(Selection(None, Marks(env, calls, false))))
    else
      var (after, delta) := provider.value(w, targets);
      match delta
      case Ok(delta) => (after, Ok(Selection(delta, Marks(env, calls, delta.Some?))))
      case Err(failure) => (after, Err(failure))
  }

  method MarkAll(marks: array<bool>, indices: seq<nat>)
    requires forall i | i in indices :: i < marks.Length
    modifies marks
    ensures forall i: nat | i < marks.Length :: marks[i] <==> old(marks[i]) || i in indices
  {
    for k := 0 to |indices|
      invariant forall i: nat | i < marks.Length :: marks[i] <==> old(marks[i]) || i in indices[..k]
    {
      assert indices[k] in indices;
      marks[indices[k]] := true;
    }
    assert indices[..|indices|] == indices;
  }

  /** `select_scoped_project_context`. */
  method SelectScopedContext(env: Environment, provider: Option<Provider>, w: World, calls: seq<ToolCall>)
    returns (after: World, result: Result<Selection, Failure>)
    ensures (after, result) == Select(env, provider, w, calls)
  {
    var deferred := new bool[|calls|](_ => false);
    assert deferred[..] == Marks(env, calls, false);
    if provider.None? {
      return w, Ok(Selection(None, deferred[..]));
    }
    var targets := {};
    var sensitive: seq<nat> := [];
    for index := 0 to |calls|
      invariant deferred[..] == Marks(env, calls, false)
      invariant targets == AllTargets(env, calls[..index])
      invariant forall i: nat :: i in sensitive <==> i < index && IsSensitive(env, calls[i])
    {
      TargetsSoFar(env, calls, index);
      var call := calls[index];
      if call.provenance != FxLocal || call.integrity == MalformedJson || env.validate(call).Some?
          || env.targets(call) == {} {
        continue;
      }
      targets := targets + env.targets(call);
      if !env.isRead(call) {
        sensitive := sensitive + [index];
      }
    }
    assert calls[..|calls|] == calls;
    if targets == {} {
      return w, Ok(Selection(None, deferred[..]));
    }
    var (told, delta) := provider.value(w, targets);
    if delta.Err? {
      return told, Err(delta.error);
    }
    if delta.value.Some? {
      MarkAll(deferred, sensitive);
    }
    assert deferred[..] == Marks(env, calls, delta.value.Some?);
    after, result := told, Ok(Selection(delta.value, deferred[..]));
  }

  /** Only calls with side effects are ever held back, so parallel reads never include one. */
  lemma SelectionSparesReads(env: Environment, provider: Option<Provider>, w: World, calls: seq<ToolCall>)
    requires Select(env, provider, w, calls).1.Ok?
    ensures SparesReads(env, calls, Select(env, provider, w, calls).1.value.deferred)
  {
  }

  // A deferred call's tool is never prepared, and so never runs.

  ghost predicate AlikeWhereRun(env1: Environment, env2: Environment, calls: seq<ToolCall>, deferred: seq<bool>) {
    && Alike(env1, env2)
    && forall i: nat | i < |calls| && !IsDeferred(deferred, i) :: SamePreparation(env1, env2, calls[i])
  }

  ghost predicate SamePreparation(env1: Environment, env2: Environment, call: ToolCall) {
    forall w: World :: env1.prepare(w, call) == env2.prepare(w, call)
  }

  /** A deferred call comes after the parallel reads. */
  lemma DeferredIsNoRead(env: Environment, calls: seq<ToolCall>, deferred: seq<bool>, index: nat, i: nat)
    requires SparesReads(env, calls, deferred) && index <= i < |calls| && IsDeferred(deferred, i)
    ensures index + ParallelReadPrefix(env, calls[index..]) <= i
  {
    assert calls[index..][i - index] == calls[i];
  }

  /** A deferred call is never admitted. */
  lemma {:induction false} DeferredIsNotReached(env: Environment, st: State, calls: seq<ToolCall>, deferred: seq<bool>,
          scheduler: Scheduler, index: nat, i: nat)
    requires env.Terminating() && SparesReads(env, calls, deferred) && index <= i < |calls| && IsDeferred(deferred, i)
    ensures Moment(env, st, calls, deferred, scheduler, index, i) == None
    decreases |calls| - index
  {
    if !env.cancelled(st.world) && index < i {
      if IsDeferred(deferred, index) {
        DeferredIsNotReached(env, Defer(st, calls[index]), calls, deferred, scheduler, index + 1, i);
      } else {
        var next := index + ParallelReadPrefix(env, calls[index..]);
        DeferredIsNoRead(env, calls, deferred, index, i);
        if next >= index + 2 {
          var (after, result) := ReadsTogether(env, st, calls[index..next], scheduler(st, calls[index..next]));
          ParallelMoment(env, st, calls, deferred, scheduler, index, next, after, result, i);
          if result.Completed? {
            DeferredIsNotReached(env, after, calls, deferred, scheduler, next, i);
          }
        } else {
          var (ran, outcome) := Execute(env, Start(st, [calls[index]]), calls[index]);
          if outcome.Ok? {
            var (after, recorded) := Finish(env, ran, calls[index], outcome.value);
            DeferredIsNotReached(env, after, calls, deferred, scheduler, index + 1, i);
          }
        }
      }
    }
  }

  /** Whatever the tools of deferred calls would do, and whatever the reads do, the batch comes out the same. */
  lemma DeferredToolsNeverRun(env1: Environment, env2: Environment, st: State, calls: seq<ToolCall>,
          deferred: seq<bool>, scheduler: Scheduler)
    requires env1.Terminating() && env2.Terminating() && AlikeWhereRun(env1, env2, calls, deferred)
             && SparesReads(env1, calls, deferred)
    ensures Batch(env1, st, calls, deferred, scheduler) == Batch(env2, st, calls, deferred, scheduler)
  {
    forall i: nat | i < |calls|
      ensures SameAt(env1, env2, Moment(env1, st, calls, deferred, scheduler, 0, i), calls[i])
    {
      if IsDeferred(deferred, i) {
        DeferredIsNotReached(env1, st, calls, deferred, scheduler, 0, i);
      } else {
        assert SamePreparation(env1, env2, calls[i]);
      }
    }
    DeniedToolsNeverRun(env1, env2, st, calls, deferred, scheduler);
  }

  predicate HeldBack(outcome: Outcome) {
    outcome == DEFERRED || outcome == CANCELLED
  }

  lemma {:induction false} DeferredOutcomeFrom(env: Environment, st: State, calls: seq<ToolCall>, deferred: seq<bool>,
          scheduler: Scheduler, outcomes: seq<Outcome>, index: nat, i: nat)
    requires env.Terminating() && SparesReads(env, calls, deferred) && |outcomes| == index <= i < |calls|
             && IsDeferred(deferred, i)
    requires BatchFrom(env, st, calls, deferred, scheduler, outcomes, index).1.Completed?
    ensures var all := BatchFrom(env, st, calls, deferred, scheduler, outcomes, index).1.outcomes;
            |all| == |calls| && HeldBack(all[i])
    decreases |calls| - index
  {
    BatchAnswersAll(env, st, calls, deferred, scheduler, outcomes, index);
    if !env.cancelled(st.world) {
      if IsDeferred(deferred, index) {
        if i > index {
          DeferredOutcomeFrom(env, Defer(st, calls[index]), calls, deferred, scheduler, outcomes + [DEFERRED],
              index + 1, i);
        } else {
          BatchAnswersAll(env, Defer(st, calls[index]), calls, deferred, scheduler, outcomes + [DEFERRED], index + 1);
        }
      } else {
        var n := ParallelReadPrefix(env, calls[index..]);
        if n >= 2 {
          var next := index + n;
          var (after, result) := ReadsTogether(env, st, calls[index..next], scheduler(st, calls[index..next]));
          ParallelStep(env, st, calls, deferred, scheduler, outcomes, index, next, after, result);
          DeferredIsNoRead(env, calls, deferred, index, i);
          DeferredOutcomeFrom(env, after, calls, deferred, scheduler, outcomes + result.outcomes, next, i);
        } else {
          var (ran, outcome) := Execute(env, Start(st, [calls[index]]), calls[index]);
          var (after, recorded) := Finish(env, ran, calls[index], outcome.value);
          DeferredOutcomeFrom(env, after, calls, deferred, scheduler, outcomes + [recorded], index + 1, i);
        }
      }
    }
  }

  /** The outcome of a deferred call says so, unless the batch was cancelled before reaching it. */
  lemma DeferredOutcome(env: Environment, st: State, calls: seq<ToolCall>, deferred: seq<bool>,
          scheduler: Scheduler, i: nat)
    requires env.Terminating() && SparesReads(env, calls, deferred) && i < |calls| && IsDeferred(deferred, i)
    requires Batch(env, st, calls, deferred, scheduler).1.Completed?
    ensures var outcomes := Batch(env, st, calls, deferred, scheduler).1.outcomes;
            |outcomes| == |calls| && HeldBack(outcomes[i])
  {
    DeferredOutcomeFrom(env, st, calls, deferred, scheduler, [], 0, i);
  }
}
