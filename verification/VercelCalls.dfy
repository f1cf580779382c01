// The finished calls of a response, read off the events of its stream.

module VercelCalls {
  import opened Basics
  import opened Conversations
  import opened VercelFold
  import opened VercelTheorems

  // What single events say.

  predicate IsStartOf(frame: Frame, key: string) {
    frame.Object? && frame.body.ToolInputStart? && frame.body.id == Some(key)
  }

  predicate IsEndOf(frame: Frame, key: string) {
    frame.Object? && frame.body.ToolInputEnd? && frame.body.id == Some(key)
  }

  predicate IsStart(frame: Frame) {
    frame.Object? && frame.body.ToolInputStart?
  }

  predicate IsCall(frame: Frame) {
    frame.Object? && frame.body.ToolCallEvent?
  }

  predicate IsResultOf(frame: Frame, id: string) {
    frame.Object? && frame.body.ToolResult? && frame.body.toolCallId == Some(id)
  }

  function DeltaOf(frame: Frame, key: string): string {
    if frame.Object? && frame.body.ToolInputDelta? && frame.body.id == Some(key) && frame.body.delta.Some?
    then frame.body.delta.value else ""
  }

  /** Every delta streamed for the input, one after the other. */
  function Deltas(frames: seq<Frame>, key: string): string {
    if frames == [] then ""
    else Deltas(frames[..|frames| - 1], key) + DeltaOf(frames[|frames| - 1], key)
  }

  /** The last result reported for the call, if any. */
  function LastResult(frames: seq<Frame>, id: string): Option<string> {
    if frames == [] then None
    else
      var last := frames[|frames| - 1];
      if IsResultOf(last, id) then last.body.result else LastResult(frames[..|frames| - 1], id)
  }

  predicate NotRestarted(frames: seq<Frame>, key: string, from: nat, to: nat)
    requires to <= |frames|
  {
    forall j | from < j < to :: !IsStartOf(frames[j], key)
  }

  predicate EndedBefore(frames: seq<Frame>, key: string, from: nat, to: nat)
    requires to <= |frames|
  {
    exists j :: from < j < to && IsEndOf(frames[j], key)
  }

  // What a finished call says.

  function EventOf(frame: Frame): Body
    requires IsCall(frame)
  {
    frame.body
  }

  /** The call as its event, at `c`, and the input it completes, streamed from `start` on, have it. */
  ghost predicate IsRead(json: JsonParser, frames: seq<Frame>, call: ToolCall, c: nat, start: Option<nat>) {
    && c < |frames| && IsCall(frames[c])
    && var event := EventOf(frames[c]);
       && event.toolCallId == Some(call.id)
       && (NonEmpty(event.toolName).Some? ==> event.toolName == Some(call.name))
       && call.provenance == (if event.providerExecuted then Provider else FxLocal)
       && call.integrity == (if json(call.argumentsJson).Some? then Valid else MalformedJson)
       && match start
          case None => call.provisionalId == None && NonEmpty(event.toolName).Some?
                       && call.argumentsJson == (if event.input.Some? then event.input.value else "{}")
          case Some(s) => s < c && Completes(json, frames, call, c, s, event.input)
  }

  ghost predicate Completes(json: JsonParser, frames: seq<Frame>, call: ToolCall, c: nat, s: nat, input: Option<string>)
    requires s < c < |frames|
  {
    var key, streamed := Origin(call).0, Deltas(frames[s..c], Origin(call).0);
    && IsStartOf(frames[s], key) && frames[s].body.toolName == Some(call.name)
    && NotRestarted(frames, key, s, c)
    && call.argumentsJson == (if input.Some? then input.value else if streamed == "" then "{}" else streamed)
    && call.provisionalId != Some(call.id)
    && (call.provisionalId.Some? ==>
          EndedBefore(frames, key, s, c) && (input.Some? ==> Equivalent(json, input.value, streamed)))
  }

  /** One call for every call event, in order. */
  ghost predicate CallsRead(json: JsonParser, frames: seq<Frame>, calls: seq<ToolCall>, at: seq<nat>,
          starts: seq<Option<nat>>) {
    && |at| == |starts| == |calls|
    && (forall i: nat | i < |calls| :: IsRead(json, frames, calls[i], at[i], starts[i]))
    && (forall i: nat, j: nat | i < j < |at| :: at[i] < at[j])
    && (forall c: nat | c < |frames| && IsCall(frames[c]) :: c in at)
  }

  /** The result of a provider's call is the last that was reported for it, and of no other call is one reported. */
  ghost predicate ResultsRead(frames: seq<Frame>, calls: seq<ToolCall>) {
    && DistinctCalls(calls)
    && (forall i: nat | i < |calls| :: ResultRead(frames, calls[i]))
    && (forall id: string | LastResult(frames, id).Some? :: HasCall(calls, id))
  }

  ghost predicate ResultRead(frames: seq<Frame>, call: ToolCall) {
    call.providerResult == LastResult(frames, call.id) && (call.provenance.FxLocal? ==> call.providerResult == None)
  }

  /** No input is completed twice. */
  ghost predicate CompletedOnce(starts: seq<Option<nat>>) {
    forall i: nat, j: nat | i < j < |starts| && starts[i].Some? :: starts[i] != starts[j]
  }

  // What is pending.

  /** The pending input as it was streamed since its start. */
  ghost predicate IsPending(frames: seq<Frame>, key: string, tool: PendingTool, s: nat) {
    && s < |frames| && IsStartOf(frames[s], key) && frames[s].body.toolName == Some(tool.name)
    && NotRestarted(frames, key, s, |frames|)
    && tool.arguments == Deltas(frames[s..], key)
    && (tool.ended ==> EndedBefore(frames, key, s, |frames|))
  }

  ghost predicate IsOpen(frames: seq<Frame>, pending: map<string, PendingTool>, since: map<string, nat>,
          starts: seq<Option<nat>>, key: string)
    requires key in pending
  {
    key in since && IsPending(frames, key, pending[key], since[key]) && Some(since[key]) !in starts
  }

  /** Every input started is completed by one call or still pending. */
  ghost predicate IsAccounted(pending: map<string, PendingTool>, since: map<string, nat>, starts: seq<Option<nat>>,
          s: nat) {
    Some(s) in starts || exists key :: key in pending && key in since && since[key] == s
  }

  ghost predicate PendingRead(frames: seq<Frame>, pending: map<string, PendingTool>, since: map<string, nat>,
          starts: seq<Option<nat>>) {
    && (forall key | key in pending :: IsOpen(frames, pending, since, starts, key))
    && (forall s: nat | s < |frames| && IsStart(frames[s]) :: IsAccounted(pending, since, starts, s))
    && (forall s: nat | Some(s) in starts :: s < |frames|)
  }

  /** Where the calls and the pending inputs of a fold come from. */
  datatype Sources = Sources(at: seq<nat>, starts: seq<Option<nat>>, since: map<string, nat>)

  ghost predicate FoldRead(json: JsonParser, frames: seq<Frame>, fold: Fold, from: Sources) {
    && CallsRead(json, frames, fold.toolCalls, from.at, from.starts)
    && ResultsRead(frames, fold.toolCalls)
    && CompletedOnce(from.starts)
    && PendingRead(frames, fold.pending, from.since, from.starts)
  }

  // One more event.

  lemma OneMoreDelta(frames: seq<Frame>, frame: Frame, key: string, s: nat)
    requires s <= |frames|
    ensures Deltas((frames + [frame])[s..], key) == Deltas(frames[s..], key) + DeltaOf(frame, key)
    ensures s <= |frames| ==> (frames + [frame])[s..|frames|] == frames[s..]
  {
    var grown := (frames + [frame])[s..];
    assert grown[..|grown| - 1] == frames[s..] && grown[|grown| - 1] == frame;
  }

  lemma OneMoreResult(frames: seq<Frame>, frame: Frame, id: string)
    ensures LastResult(frames + [frame], id)
            == if IsResultOf(frame, id) then frame.body.result else LastResult(frames, id)
  {
    assert (frames + [frame])[..|frames|] == frames;
  }

  lemma StaysRead(json: JsonParser, frames: seq<Frame>, frame: Frame, call: ToolCall, c: nat, start: Option<nat>)
    requires IsRead(json, frames, call, c, start)
    ensures IsRead(json, frames + [frame], call, c, start)
  {
    var grown := frames + [frame];
    if start.Some? {
      var s := start.value;
      assert grown[s..c] == frames[s..c];
      if call.provisionalId.Some? {
        var key := Origin(call).0;
        var j :| s < j < c && IsEndOf(frames[j], key);
        assert IsEndOf(grown[j], key);
      }
    }
  }

  /** What a finished call says does not depend on its result. */
  lemma ResultIsApart(json: JsonParser, frames: seq<Frame>, call: ToolCall, c: nat, start: Option<nat>,
          result: Option<string>)
    requires IsRead(json, frames, call, c, start)
    ensures IsRead(json, frames, call.(providerResult := result), c, start)
  {
    assert Origin(call.(providerResult := result)) == Origin(call);
  }

  lemma CallsStayRead(json: JsonParser, frames: seq<Frame>, frame: Frame, calls: seq<ToolCall>, at: seq<nat>,
          starts: seq<Option<nat>>)
    requires CallsRead(json, frames, calls, at, starts) && !IsCall(frame)
    ensures CallsRead(json, frames + [frame], calls, at, starts)
  {
    forall i: nat | i < |calls| ensures IsRead(json, frames + [frame], calls[i], at[i], starts[i]) {
      StaysRead(json, frames, frame, calls[i], at[i], starts[i]);
    }
  }

  lemma ResultsStayRead(frames: seq<Frame>, frame: Frame, calls: seq<ToolCall>)
    requires ResultsRead(frames, calls) && !(frame.Object? && frame.body.ToolResult?)
    ensures ResultsRead(frames + [frame], calls)
  {
    forall id: string ensures LastResult(frames + [frame], id) == LastResult(frames, id) {
      OneMoreResult(frames, frame, id);
    }
    forall i: nat | i < |calls| ensures ResultRead(frames + [frame], calls[i]) {
      assert ResultRead(frames, calls[i]);
    }
  }

  lemma StaysPending(frames: seq<Frame>, frame: Frame, key: string, tool: PendingTool, s: nat, grown: PendingTool)
    requires IsPending(frames, key, tool, s) && !IsStartOf(frame, key) && grown.name == tool.name
    requires grown.arguments == tool.arguments + DeltaOf(frame, key)
    requires grown.ended ==> tool.ended || IsEndOf(frame, key)
    ensures IsPending(frames + [frame], key, grown, s)
  {
    var later := frames + [frame];
    OneMoreDelta(frames, frame, key, s);
    if grown.ended {
      if tool.ended {
        var j :| s < j < |frames| && IsEndOf(frames[j], key);
        assert IsEndOf(later[j], key);
      } else {
        assert IsEndOf(later[|frames|], key);
      }
    }
  }

  /** The event changes at most what is streamed of the pending inputs. */
  predicate Grows(frame: Frame, pending: map<string, PendingTool>, grown: map<string, PendingTool>) {
    && grown.Keys == pending.Keys
    && forall key | key in pending ::
         && grown[key].name == pending[key].name
         && grown[key].arguments == pending[key].arguments + DeltaOf(frame, key)
         && (grown[key].ended ==> pending[key].ended || IsEndOf(frame, key))
  }

  lemma PendingGrows(frames: seq<Frame>, frame: Frame, pending: map<string, PendingTool>,
          grown: map<string, PendingTool>, since: map<string, nat>, starts: seq<Option<nat>>)
    requires PendingRead(frames, pending, since, starts) && Grows(frame, pending, grown) && !IsStart(frame)
    ensures PendingRead(frames + [frame], grown, since, starts)
  {
    forall key | key in grown ensures IsOpen(frames + [frame], grown, since, starts, key) {
      assert IsOpen(frames, pending, since, starts, key);
      StaysPending(frames, frame, key, pending[key], since[key], grown[key]);
    }
    forall s: nat | s < |frames + [frame]| && IsStart((frames + [frame])[s])
      ensures IsAccounted(grown, since, starts, s)
    {
      assert IsStart(frames[s]) && IsAccounted(pending, since, starts, s);
    }
  }

  lemma InputStarts(frames: seq<Frame>, frame: Frame, id: string, name: string, pending: map<string, PendingTool>,
          since: map<string, nat>, starts: seq<Option<nat>>)
    requires PendingRead(frames, pending, since, starts) && id !in pending
    requires frame.Object? && frame.body == ToolInputStart(Some(id), Some(name))
    ensures PendingRead(frames + [frame], pending[id := PendingTool(name, [], false)], since[id := |frames|], starts)
  {
    var grown, later, now := pending[id := PendingTool(name, [], false)], since[id := |frames|], frames + [frame];
    forall key | key in grown ensures IsOpen(now, grown, later, starts, key) {
      if key == id {
        assert now[|frames|..] == [frame];
      } else {
        assert IsOpen(frames, pending, since, starts, key);
        StaysPending(frames, frame, key, pending[key], since[key], grown[key]);
      }
    }
    forall s: nat | s < |now| && IsStart(now[s]) ensures IsAccounted(grown, later, starts, s) {
      if s == |frames| {
        assert id in grown && id in later && later[id] == s;
      } else {
        assert IsStart(frames[s]) && IsAccounted(pending, since, starts, s);
        if Some(s) !in starts {
          var key :| key in pending && key in since && since[key] == s;
          assert key in grown && key in later && later[key] == s;
        }
      }
    }
  }

  lemma InputCompletes(frames: seq<Frame>, frame: Frame, key: Option<string>, pending: map<string, PendingTool>,
          since: map<string, nat>, starts: seq<Option<nat>>, start: Option<nat>)
    requires PendingRead(frames, pending, since, starts) && IsCall(frame)
    requires if key.Some? then key.value in pending && key.value in since && start == Some(since[key.value])
             else start == None
    ensures PendingRead(frames + [frame], WithoutKey(pending, key), since, starts + [start])
  {
    var left, all, now := WithoutKey(pending, key), starts + [start], frames + [frame];
    forall other | other in left ensures IsOpen(now, left, since, all, other) {
      assert IsOpen(frames, pending, since, starts, other);
      StaysPending(frames, frame, other, pending[other], since[other], left[other]);
      if key.Some? {
        assert IsOpen(frames, pending, since, starts, key.value);
        assert since[other] != since[key.value];
      }
    }
    forall s: nat | s < |now| && IsStart(now[s]) ensures IsAccounted(left, since, all, s) {
      assert IsStart(frames[s]) && IsAccounted(pending, since, starts, s);
      if Some(s) !in all {
        var other :| other in pending && other in since && since[other] == s;
        assert all[|starts|] == start;
        assert key != Some(other);
        assert other in left;
      }
    }
    forall s: nat | Some(s) in all ensures s < |now| {
      if key.Some? {
        assert IsOpen(frames, pending, since, starts, key.value);
      }
    }
  }

  // Every accepted event keeps what is read right.

  lemma QuietEvent(json: JsonParser, frames: seq<Frame>, frame: Frame, fold: Fold, next: Fold, from: Sources)
    requires FoldRead(json, frames, fold, from) && !IsCall(frame) && !IsStart(frame)
    requires !(frame.Object? && frame.body.ToolResult?)
    requires next.toolCalls == fold.toolCalls && Grows(frame, fold.pending, next.pending)
    ensures FoldRead(json, frames + [frame], next, from)
  {
    CallsStayRead(json, frames, frame, fold.toolCalls, from.at, from.starts);
    ResultsStayRead(frames, frame, fold.toolCalls);
    PendingGrows(frames, frame, fold.pending, next.pending, from.since, from.starts);
  }

  lemma StartEvent(json: JsonParser, frames: seq<Frame>, frame: Frame, fold: Fold, next: Fold, from: Sources)
    returns (to: Sources)
    requires FoldRead(json, frames, fold, from) && IsStart(frame)
    requires StartInput(fold, frame.body.id, frame.body.toolName) == Ok(next)
    ensures FoldRead(json, frames + [frame], next, to)
  {
    var id, name := frame.body.id.value, frame.body.toolName.value;
    to := from.(since := from.since[id := |frames|]);
    CallsStayRead(json, frames, frame, fold.toolCalls, from.at, from.starts);
    ResultsStayRead(frames, frame, fold.toolCalls);
    InputStarts(frames, frame, id, name, fold.pending, from.since, from.starts);
  }

  /** The input a captured call completes, if any. */
  function KeyOf(json: JsonParser, fold: Fold, event: Body): Option<string>
    requires event.ToolCallEvent? && event.toolCallId.Some?
  {
    PendingFor(json, fold.pending, event.toolCallId.value, NonEmpty(event.toolName), event.input)
  }

  /** An input under another identifier is completed only once it ended, and by no other arguments. */
  lemma KeyIsSound(json: JsonParser, fold: Fold, event: Body)
    requires event.ToolCallEvent? && event.toolCallId.Some?
    ensures var key := KeyOf(json, fold, event);
            key.Some? ==>
              && key.value in fold.pending
              && (key != event.toolCallId ==>
                    && fold.pending[key.value].ended
                    && (event.input.Some? ==>
                          Equivalent(json, event.input.value, fold.pending[key.value].arguments)))
  {
  }

  /** The ended inputs that a call without an input of its own could complete. */
  ghost predicate IsCandidate(json: JsonParser, pending: map<string, PendingTool>, event: Body, key: string)
    requires event.ToolCallEvent?
  {
    && key in pending && pending[key].ended
    && (NonEmpty(event.toolName).Some? ==> event.toolName == Some(pending[key].name))
    && (event.input.Some? ==> Equivalent(json, event.input.value, pending[key].arguments))
  }

  /**
   * A call is accepted exactly if it is new and has a name: its own, which must be that of the input streamed under
   * its identifier, or that of this input, or that of the only other input it could complete. It takes its own input,
   * or else the only candidate, and leaves every other.
   */
  lemma CallAcceptedExactlyWhen(json: JsonParser, fold: Fold, event: Body)
    requires event.ToolCallEvent? && NonEmpty(event.toolCallId).Some?
    ensures var id, named := event.toolCallId.value, NonEmpty(event.toolName).Some?;
            var result :=
                CaptureCall(json, fold, event.toolCallId, event.toolName, event.input, event.providerExecuted);
            var others := set key | key in fold.pending && IsCandidate(json, fold.pending, event, key);
            && (result.Ok? <==>
                  && !HasCall(fold.toolCalls, id)
                  && (if id in fold.pending then named ==> event.toolName == Some(fold.pending[id].name)
                      else named || |others| == 1))
            && (result.Ok? ==>
                  fold.pending.Keys - result.value.pending.Keys
                  == (if id in fold.pending then {id} else if |others| == 1 then others else {}))
  {
    var others := set key | key in fold.pending && IsCandidate(json, fold.pending, event, key);
    assert others == Candidates(json, fold.pending, NonEmpty(event.toolName), event.input);
    if |others| == 1 {
      var only := Only(others);
      assert |others - {only}| == 0;
      assert others == {only};
    }
  }

  lemma PendingCompletes(json: JsonParser, frames: seq<Frame>, frame: Frame, key: string, tool: PendingTool, s: nat,
          call: ToolCall, input: Option<string>)
    requires IsPending(frames, key, tool, s) && Origin(call) == (key, tool.name)
    requires call.argumentsJson == Arguments(input, Some(tool)) && call.provisionalId != Some(call.id)
    requires call.provisionalId.Some? ==>
               tool.ended && (input.Some? ==> Equivalent(json, input.value, tool.arguments))
    ensures Completes(json, frames + [frame], call, |frames|, s, input)
  {
    var grown := frames + [frame];
    assert grown[s..|frames|] == frames[s..];
    if call.provisionalId.Some? {
      var j :| s < j < |frames| && IsEndOf(frames[j], key);
      assert IsEndOf(grown[j], key);
    }
  }

  lemma NewCallRead(json: JsonParser, frames: seq<Frame>, frame: Frame, fold: Fold, next: Fold, from: Sources,
          call: ToolCall, start: Option<nat>)
    requires PendingRead(frames, fold.pending, from.since, from.starts) && IsCall(frame)
    requires var e := frame.body;
             CaptureCall(json, fold, e.toolCallId, e.toolName, e.input, e.providerExecuted) == Ok(next)
    requires next.toolCalls == fold.toolCalls + [call]
    requires var key := KeyOf(json, fold, frame.body);
             if key.Some? then key.value in from.since && start == Some(from.since[key.value]) else start == None
    ensures IsRead(json, frames + [frame], call, |frames|, start)
    ensures call.id == frame.body.toolCallId.value && call.providerResult == None
  {
    var key := KeyOf(json, fold, frame.body);
    assert call == next.toolCalls[|fold.toolCalls|];
    if key.Some? {
      KeyIsSound(json, fold, frame.body);
      assert IsOpen(frames, fold.pending, from.since, from.starts, key.value);
      PendingCompletes(json, frames, frame, key.value, fold.pending[key.value], start.value, call, frame.body.input);
    }
  }

  lemma OneMoreCallRead(json: JsonParser, frames: seq<Frame>, frame: Frame, calls: seq<ToolCall>, call: ToolCall,
          at: seq<nat>, starts: seq<Option<nat>>, start: Option<nat>)
    requires CallsRead(json, frames, calls, at, starts) && IsRead(json, frames + [frame], call, |frames|, start)
    ensures CallsRead(json, frames + [frame], calls + [call], at + [|frames|], starts + [start])
  {
    var all, places, begun := calls + [call], at + [|frames|], starts + [start];
    forall i: nat | i < |all| ensures IsRead(json, frames + [frame], all[i], places[i], begun[i]) {
      if i < |calls| {
        StaysRead(json, frames, frame, calls[i], at[i], starts[i]);
      }
    }
    forall i: nat | i < |at| ensures at[i] < |frames| {
      assert IsRead(json, frames, calls[i], at[i], starts[i]);
    }
    forall c: nat | c < |frames + [frame]| && IsCall((frames + [frame])[c]) ensures c in places {
      if c < |frames| {
        assert IsCall(frames[c]) && c in at;
      } else {
        assert places[|at|] == c;
      }
    }
  }

  lemma OneMoreWithoutResult(frames: seq<Frame>, frame: Frame, calls: seq<ToolCall>, call: ToolCall)
    requires ResultsRead(frames, calls) && IsCall(frame) && !HasCall(calls, call.id) && call.providerResult == None
    ensures ResultsRead(frames + [frame], calls + [call])
  {
    ResultsStayRead(frames, frame, calls);
    var all, now := calls + [call], frames + [frame];
    forall i: nat | i < |all| ensures ResultRead(now, all[i]) {
      if i < |calls| {
        assert ResultRead(now, calls[i]);
      }
    }
    forall id: string | LastResult(now, id).Some? ensures HasCall(all, id) {
      var i: nat :| i < |calls| && calls[i].id == id;
      assert all[i].id == id;
    }
  }

  lemma CallEvent(json: JsonParser, frames: seq<Frame>, frame: Frame, fold: Fold, next: Fold, from: Sources)
    returns (to: Sources)
    requires FoldRead(json, frames, fold, from) && IsCall(frame)
    requires var e := frame.body;
             CaptureCall(json, fold, e.toolCallId, e.toolName, e.input, e.providerExecuted) == Ok(next)
    ensures FoldRead(json, frames + [frame], next, to)
  {
    var key := KeyOf(json, fold, frame.body);
    var start: Option<nat> := None;
    if key.Some? {
      assert IsOpen(frames, fold.pending, from.since, from.starts, key.value);
      start := Some(from.since[key.value]);
    }
    var call := next.toolCalls[|fold.toolCalls|];
    NewCallRead(json, frames, frame, fold, next, from, call, start);
    OneMoreCallRead(json, frames, frame, fold.toolCalls, call, from.at, from.starts, start);
    OneMoreWithoutResult(frames, frame, fold.toolCalls, call);
    InputCompletes(frames, frame, key, fold.pending, from.since, from.starts, start);
    to := Sources(from.at + [|frames|], from.starts + [start], from.since);
    assert CompletedOnce(to.starts);
  }

  lemma ResultEvent(json: JsonParser, frames: seq<Frame>, frame: Frame, fold: Fold, next: Fold, from: Sources)
    requires FoldRead(json, frames, fold, from) && frame.Object? && frame.body.ToolResult?
    requires CaptureResult(fold, frame.body.toolCallId, frame.body.result) == Ok(next)
    ensures FoldRead(json, frames + [frame], next, from)
  {
    var id := frame.body.toolCallId.value;
    FindCallFinds(fold.toolCalls, id);
    var index := FindCall(fold.toolCalls, id).value;
    PendingGrows(frames, frame, fold.pending, next.pending, from.since, from.starts);
    CallsStayRead(json, frames, frame, fold.toolCalls, from.at, from.starts);
    ResultIsNoted(json, frames + [frame], fold.toolCalls, index, frame.body.result, from.at, from.starts);
    ResultArrives(frames, frame, fold.toolCalls, index, frame.body.result);
  }

  lemma ResultIsNoted(json: JsonParser, frames: seq<Frame>, calls: seq<ToolCall>, index: nat, result: Option<string>,
          at: seq<nat>, starts: seq<Option<nat>>)
    requires CallsRead(json, frames, calls, at, starts) && index < |calls|
    ensures CallsRead(json, frames, calls[index := calls[index].(providerResult := result)], at, starts)
  {
    ResultIsApart(json, frames, calls[index], at[index], starts[index], result);
  }

  lemma ResultArrives(frames: seq<Frame>, frame: Frame, calls: seq<ToolCall>, index: nat, result: Option<string>)
    requires ResultsRead(frames, calls) && index < |calls| && calls[index].provenance.Provider?
    requires frame.Object? && frame.body == ToolResult(Some(calls[index].id), result)
    ensures ResultsRead(frames + [frame], calls[index := calls[index].(providerResult := result)])
  {
    var noted, now := calls[index := calls[index].(providerResult := result)], frames + [frame];
    forall i: nat | i < |noted| ensures noted[i].id == calls[i].id && ResultRead(now, noted[i]) {
      OneMoreResult(frames, frame, calls[i].id);
      assert ResultRead(frames, calls[i]);
    }
    forall id: string | LastResult(now, id).Some? ensures HasCall(noted, id) {
      OneMoreResult(frames, frame, id);
      if id == calls[index].id {
        assert noted[index].id == id;
      } else {
        var i: nat :| i < |calls| && calls[i].id == id;
        assert noted[i].id == id;
      }
    }
  }

  lemma DeltaGrows(frame: Frame, fold: Fold, next: Fold)
    requires frame.Object? && frame.body.ToolInputDelta?
    requires GrowInput(fold, frame.body.id, frame.body.delta) == Ok(next)
    ensures next.toolCalls == fold.toolCalls && Grows(frame, fold.pending, next.pending)
  {
    forall key | key in fold.pending
      ensures next.pending[key].arguments == fold.pending[key].arguments + DeltaOf(frame, key)
    {
    }
  }

  lemma EndGrows(frame: Frame, fold: Fold, next: Fold)
    requires frame.Object? && frame.body.ToolInputEnd? && EndInput(fold, frame.body.id) == Ok(next)
    ensures next.toolCalls == fold.toolCalls && Grows(frame, fold.pending, next.pending)
  {
    forall key | key in fold.pending
      ensures next.pending[key].arguments == fold.pending[key].arguments + DeltaOf(frame, key)
    {
    }
  }

  lemma NothingGrows(frame: Frame, pending: map<string, PendingTool>)
    requires frame.Object? ==> !frame.body.ToolInputDelta?
    ensures Grows(frame, pending, pending)
  {
    forall key | key in pending
      ensures pending[key].arguments == pending[key].arguments + DeltaOf(frame, key)
    {
    }
  }

  lemma AbsorbReads(json: JsonParser, frames: seq<Frame>, frame: Frame, fold: Fold, next: Fold, from: Sources)
    returns (to: Sources)
    requires FoldRead(json, frames, fold, from) && frame.Object? && Absorb(json, fold, frame.body) == Ok(next)
    ensures FoldRead(json, frames + [frame], next, to)
  {
    to := from;
    match frame.body {
      case ToolInputStart(_, _) =>
        to := StartEvent(json, frames, frame, fold, next, from);
      case ToolInputDelta(_, _) =>
        DeltaGrows(frame, fold, next);
        QuietEvent(json, frames, frame, fold, next, from);
      case ToolInputEnd(_) =>
        EndGrows(frame, fold, next);
        QuietEvent(json, frames, frame, fold, next, from);
      case ToolCallEvent(_, _, _, _) =>
        to := CallEvent(json, frames, frame, fold, next, from);
      case ToolResult(_, _) =>
        ResultEvent(json, frames, frame, fold, next, from);
      case TextDelta(_) | ReasoningDelta(_) | ErrorEvent(_) | Finish(_, _) | Unknown =>
        TalkMovesNoTool(json, fold, frame.body);
        NothingGrows(frame, fold.pending);
        QuietEvent(json, frames, frame, fold, next, from);
    }
  }

  lemma TalkMovesNoTool(json: JsonParser, fold: Fold, body: Body)
    requires body.TextDelta? || body.ReasoningDelta? || body.ErrorEvent? || body.Finish? || body.Unknown?
    ensures match Absorb(json, fold, body)
            case Ok(next) => next.toolCalls == fold.toolCalls && next.pending == fold.pending
            case Err(_) => true
  {
  }

  lemma ProcessReads(json: JsonParser, frames: seq<Frame>, frame: Frame, fold: Fold, next: Fold, from: Sources)
    returns (to: Sources)
    requires FoldRead(json, frames, fold, from) && Process(json, fold, frame).Ok?
    requires next == Process(json, fold, frame).value.0
    ensures FoldRead(json, frames + [frame], next, to)
  {
    if frame.Object? {
      to := AbsorbReads(json, frames, frame, NoteGeneration(fold, frame.generationId), next, from);
    } else {
      to := from;
      NothingGrows(frame, fold.pending);
      QuietEvent(json, frames, frame, fold, next, from);
    }
  }

  lemma {:induction false} ConsumeReads(json: JsonParser, past: seq<Frame>, fold: Fold, frames: seq<Frame>,
          from: Sources) returns (n: nat, to: Sources)
    requires FoldRead(json, past, fold, from) && Consume(json, fold, frames).Ok?
    ensures 0 < n <= |frames| && FinishesFor(frames[n - 1], Consume(json, fold, frames).value.finishReason)
    ensures FoldRead(json, past + frames[..n], Consume(json, fold, frames).value, to)
    decreases |frames|
  {
    var (next, finished) := Process(json, fold, frames[0]).value;
    to := ProcessReads(json, past, frames[0], fold, next, from);
    if finished {
      n := 1;
      assert frames[..1] == [frames[0]];
    } else {
      var rest := frames[1..];
      var more;
      more, to := ConsumeReads(json, past + [frames[0]], next, rest, to);
      n := more + 1;
      assert past + [frames[0]] + rest[..more] == past + frames[..n];
    }
  }

  predicate FinishesFor(frame: Frame, reason: Option<FinishReason>) {
    frame.Object? && frame.body.Finish? && frame.body.reason.Some? && reason == ReasonOf(frame.body.reason.value)
  }

  /** The whole of a response's calls, as the frames up to the finish event have them. */
  ghost predicate CallsAreStreamed(json: JsonParser, frames: seq<Frame>, calls: seq<ToolCall>, at: seq<nat>,
          starts: seq<Option<nat>>) {
    && CallsRead(json, frames, calls, at, starts)
    && ResultsRead(frames, calls)
    && CompletedOnce(starts)
    && (forall s: nat | s < |frames| && IsStart(frames[s]) :: Some(s) in starts)
  }

  /**
   * The calls of a response are those of its stream's call events, in order. Each has its event's input for
   * arguments, or else everything streamed, in order, for the input it completes, or else an empty object; its
   * provenance, result and integrity are those of the stream, and every input started is completed by one call.
   */
  lemma ResponseIsStreamed(json: JsonParser, frames: seq<Frame>)
    returns (n: nat, at: seq<nat>, starts: seq<Option<nat>>)
    requires Consume(json, EMPTY_FOLD, frames).Ok? && Conclude(Consume(json, EMPTY_FOLD, frames).value).Ok?
    ensures 0 < n <= |frames|
    ensures var response := Conclude(Consume(json, EMPTY_FOLD, frames).value).value;
            && FinishesFor(frames[n - 1], response.finishReason)
            && CallsAreStreamed(json, frames[..n], response.toolCalls, at, starts)
  {
    var to;
    n, to := ConsumeReads(json, [], EMPTY_FOLD, frames, Sources([], [], map[]));
    assert [] + frames[..n] == frames[..n];
    at, starts := to.at, to.starts;
    var past, fold := frames[..n], Consume(json, EMPTY_FOLD, frames).value;
    forall s: nat | s < |past| && IsStart(past[s]) ensures Some(s) in starts {
      assert IsAccounted(fold.pending, to.since, starts, s);
    }
  }

  // What else a stream comes to.

  function TextOf(frame: Frame): string {
    if frame.Object? && frame.body.TextDelta? && frame.body.delta.Some? then frame.body.delta.value else ""
  }

  function ReasoningOf(frame: Frame): string {
    if frame.Object? && frame.body.ReasoningDelta? && frame.body.delta.Some? then frame.body.delta.value else ""
  }

  /** All of it, one event after the other. */
  function Joined(frames: seq<Frame>, part: Frame -> string): string {
    if frames == [] then "" else Joined(frames[..|frames| - 1], part) + part(frames[|frames| - 1])
  }

  function Reasoned(emitted: seq<GatewayEvent>): string {
    if emitted == [] then ""
    else
      var last := emitted[|emitted| - 1];
      Reasoned(emitted[..|emitted| - 1]) + (if last.Reasoning? then last.text else "")
  }

  predicate ReportsError(frame: Frame) {
    frame.Object?
    && (frame.body.ErrorEvent? || (frame.body.Finish? && frame.body.reason == Some("error")))
  }

  predicate AnyReportsError(frames: seq<Frame>) {
    exists frame :: frame in frames && ReportsError(frame)
  }

  /** The first identifier of the generation that is not empty. */
  function FirstGeneration(frames: seq<Frame>): Option<string> {
    if frames == [] then None
    else
      var earlier, last := FirstGeneration(frames[..|frames| - 1]), frames[|frames| - 1];
      if earlier.Some? then earlier else if last.Object? then NonEmpty(last.generationId) else None
  }

  /** The texts put together, and whether an error was reported. */
  ghost predicate TalkRead(frames: seq<Frame>, fold: Fold) {
    && fold.content == Joined(frames, TextOf)
    && Reasoned(fold.emitted) == Joined(frames, ReasoningOf)
    && fold.generationId == FirstGeneration(frames)
    && (fold.providerError.Some? <==> AnyReportsError(frames))
  }

  lemma OneMoreTold(frames: seq<Frame>, frame: Frame)
    ensures Joined(frames + [frame], TextOf) == Joined(frames, TextOf) + TextOf(frame)
    ensures Joined(frames + [frame], ReasoningOf) == Joined(frames, ReasoningOf) + ReasoningOf(frame)
    ensures AnyReportsError(frames + [frame]) <==> AnyReportsError(frames) || ReportsError(frame)
    ensures FirstGeneration(frames + [frame])
            == if FirstGeneration(frames).Some? then FirstGeneration(frames)
               else if frame.Object? then NonEmpty(frame.generationId) else None
  {
    assert (frames + [frame])[..|frames|] == frames;
    assert forall one :: one in frames + [frame] <==> one in frames || one == frame;
  }

  lemma EmittedReasoning(emitted: seq<GatewayEvent>, event: GatewayEvent)
    ensures Reasoned(emitted + [event]) == Reasoned(emitted) + (if event.Reasoning? then event.text else "")
  {
    assert (emitted + [event])[..|emitted|] == emitted;
  }

  /** The fold went on by what the event tells. */
  ghost predicate TalksOn(fold: Fold, frame: Frame, next: Fold) {
    && next.content == fold.content + TextOf(frame)
    && next.generationId == fold.generationId
    && (next.providerError.Some? <==> fold.providerError.Some? || ReportsError(frame))
    && Reasoned(next.emitted) == Reasoned(fold.emitted) + ReasoningOf(frame)
  }

  lemma SilentTalks(fold: Fold, frame: Frame, next: Fold)
    requires next.content == fold.content && next.generationId == fold.generationId && !ReportsError(frame)
    requires next.providerError == fold.providerError && TextOf(frame) == "" && ReasoningOf(frame) == ""
    requires next.emitted == fold.emitted
             || exists id, name :: next.emitted == fold.emitted + [ToolStarted(id, name)]
    ensures TalksOn(fold, frame, next)
  {
    assert fold.content + "" == fold.content;
    if next.emitted != fold.emitted {
      var id, name :| next.emitted == fold.emitted + [ToolStarted(id, name)];
      EmittedReasoning(fold.emitted, ToolStarted(id, name));
    }
  }

  lemma TextTalks(fold: Fold, frame: Frame, delta: Option<string>)
    requires frame.Object? && frame.body == TextDelta(delta)
    ensures TalksOn(fold, frame, if delta.Some? then AddContent(fold, delta.value) else fold)
  {
    assert fold.content + "" == fold.content;
    if delta.Some? {
      EmittedReasoning(fold.emitted, ContentDelta(delta.value));
    }
  }

  lemma ReasoningTalks(fold: Fold, frame: Frame, delta: Option<string>)
    requires frame.Object? && frame.body == ReasoningDelta(delta)
    ensures TalksOn(fold, frame, if NonEmpty(delta).Some? then Emit(fold, Reasoning(delta.value)) else fold)
  {
    assert fold.content + "" == fold.content;
    if delta.Some? {
      EmittedReasoning(fold.emitted, Reasoning(delta.value));
    }
  }

  lemma AbsorbTalks(json: JsonParser, fold: Fold, frame: Frame, next: Fold)
    requires frame.Object? && Absorb(json, fold, frame.body) == Ok(next)
    ensures TalksOn(fold, frame, next)
  {
    match frame.body {
      case TextDelta(delta) => TextTalks(fold, frame, delta);
      case ReasoningDelta(delta) => ReasoningTalks(fold, frame, delta);
      case ToolInputStart(_, _) | ToolInputDelta(_, _) | ToolInputEnd(_) | ToolResult(_, _) | Unknown =>
        SilentTalks(fold, frame, next);
      case ToolCallEvent(_, _, _, _) =>
        SilentTalks(fold, frame, next);
      case ErrorEvent(_) =>
        assert fold.content + "" == fold.content;
      case Finish(reason, _) =>
        OnlyErrorIsError(reason.value);
        assert fold.content + "" == fold.content;
    }
  }

  lemma OnlyErrorIsError(text: string)
    ensures ReasonOf(text) == Some(FinishReason.Error) <==> text == "error"
  {
  }

  lemma ProcessTalks(json: JsonParser, frames: seq<Frame>, frame: Frame, fold: Fold, next: Fold)
    requires TalkRead(frames, fold) && Process(json, fold, frame).Ok? && next == Process(json, fold, frame).value.0
    ensures TalkRead(frames + [frame], next)
  {
    OneMoreTold(frames, frame);
    if frame.Object? {
      AbsorbTalks(json, NoteGeneration(fold, frame.generationId), frame, next);
    }
  }

  lemma {:induction false} ConsumeTalks(json: JsonParser, past: seq<Frame>, fold: Fold, frames: seq<Frame>)
    returns (n: nat)
    requires TalkRead(past, fold) && Consume(json, fold, frames).Ok?
    ensures 0 < n <= |frames| && frames[n - 1].Object? && frames[n - 1].body.Finish?
    ensures forall i: nat | i < n - 1 :: !(frames[i].Object? && frames[i].body.Finish?)
    ensures TalkRead(past + frames[..n], Consume(json, fold, frames).value)
    decreases |frames|
  {
    var (next, finished) := Process(json, fold, frames[0]).value;
    ProcessTalks(json, past, frames[0], fold, next);
    if finished {
      n := 1;
      assert frames[..1] == [frames[0]];
    } else {
      var rest := frames[1..];
      var more := ConsumeTalks(json, past + [frames[0]], next, rest);
      n := more + 1;
      assert past + [frames[0]] + rest[..more] == past + frames[..n];
      assert forall i: nat | 0 < i < n - 1 :: frames[i] == rest[i - 1];
    }
  }

  /**
   * A stream read up to its first finish event is turned into a response exactly if no event reports an error and no
   * input is left open; the content is the text streamed, in order, and so is the reasoning passed on.
   */
  lemma ResponseIsTold(json: JsonParser, frames: seq<Frame>) returns (n: nat)
    requires Consume(json, EMPTY_FOLD, frames).Ok?
    ensures 0 < n <= |frames| && frames[n - 1].Object? && frames[n - 1].body.Finish?
    ensures forall i: nat | i < n - 1 :: !(frames[i].Object? && frames[i].body.Finish?)
    ensures var fold := Consume(json, EMPTY_FOLD, frames).value;
            var told, response := Joined(frames[..n], TextOf), Conclude(fold);
            && (response.Ok? <==> !AnyReportsError(frames[..n]) && fold.pending == map[])
            && (response.Ok? ==>
                  && response.value.content == (if told == "" then None else Some(told))
                  && response.value.generationId == FirstGeneration(frames[..n]))
            && Reasoned(fold.emitted) == Joined(frames[..n], ReasoningOf)
  {
    n := ConsumeTalks(json, [], EMPTY_FOLD, frames);
    assert [] + frames[..n] == frames[..n];
  }

  // Which events are accepted.

  /** An event is refused only for a missing field, a repeated identifier or one that nothing was started for. */
  lemma EventAcceptedExactlyWhen(json: JsonParser, fold: Fold, body: Body)
    ensures Absorb(json, fold, body).Ok? <==>
            match body
            case ToolInputStart(id, toolName) =>
              && NonEmpty(id).Some? && NonEmpty(toolName).Some?
              && id.value !in fold.pending && forall call | call in fold.toolCalls :: call.id != id.value
            case ToolInputDelta(id, _) => NonEmpty(id).Some? && id.value in fold.pending
            case ToolInputEnd(id) => NonEmpty(id).Some? && id.value in fold.pending
            case ToolResult(id, result) =>
              && NonEmpty(id).Some? && result.Some?
              && exists i: nat :: i < |fold.toolCalls| && fold.toolCalls[i].id == id.value
                                  && (forall j: nat | j < i :: fold.toolCalls[j].id != id.value)
                                  && fold.toolCalls[i].provenance.Provider?
            case ToolCallEvent(id, toolName, input, providerExecuted) =>
              NonEmpty(id).Some? && CaptureCall(json, fold, id, toolName, input, providerExecuted).Ok?
            case Finish(reason, _) =>
              reason.Some? && reason.value in {"stop", "length", "content-filter", "tool-calls", "error", "other"}
            case _ => true
  {
    match body {
      case ToolInputStart(id, _) =>
        if NonEmpty(id).Some? {
          HasCallIsMember(fold.toolCalls, id.value);
        }
      case ToolResult(id, _) =>
        if NonEmpty(id).Some? {
          FindCallFinds(fold.toolCalls, id.value);
          if HasCall(fold.toolCalls, id.value) {
            FindsTheFirst(fold.toolCalls, id.value);
          }
        }
      case _ =>
    }
  }

  lemma HasCallIsMember(calls: seq<ToolCall>, id: string)
    ensures HasCall(calls, id) <==> exists call :: call in calls && call.id == id
  {
    if call :| call in calls && call.id == id {
      var i: nat :| i < |calls| && calls[i] == call;
    }
  }

  lemma {:induction false} FindsTheFirst(calls: seq<ToolCall>, id: string)
    requires HasCall(calls, id)
    ensures FindCall(calls, id).Some? && FindCall(calls, id).value < |calls|
    ensures forall j: nat | j < FindCall(calls, id).value :: calls[j].id != id
  {
    FindCallFinds(calls, id);
    if calls[0].id != id {
      FindCallFinds(calls[1..], id);
      FindsTheFirst(calls[1..], id);
      assert forall j: nat | 0 < j < |calls| :: calls[j] == calls[1..][j - 1];
    }
  }
}
