// The stream state that events are folded into, in place.

module VercelStream {
  import opened Basics
  import opened Conversations
  import opened VercelFold

  class StreamState {
    var content: string
    var toolCalls: seq<ToolCall>
    var pending: map<string, PendingTool>
    var generationId: Option<string>
    var finishReason: Option<FinishReason>
    var providerError: Option<string>
    var emitted: seq<GatewayEvent>

    ghost function Value(): Fold
      reads this
    {
      Fold(content, toolCalls, pending, generationId, finishReason, providerError, emitted)
    }

    constructor ()
      ensures Value() == EMPTY_FOLD
    {
      content, toolCalls, pending := [], [], map[];
      generationId, finishReason, providerError := None, None, None;
      emitted := [];
    }

    method StartToolInput(id: Option<string>, toolName: Option<string>) returns (result: Result<(), StreamError>)
      modifies this
      ensures match StartInput(old(Value()), id, toolName)
              case Ok(next) => result == Ok(()) && Value() == next
              case Err(error) => result == Err(error) && emitted == old(emitted)
    {
      var id :- Required(id);
      var name :- Required(toolName);
      if id in pending || exists i: nat | i < |toolCalls| :: toolCalls[i].id == id {
        return Err(DuplicateToolInput(id));
      }
      emitted := emitted + [ToolStarted(id, name)];
      pending := pending[id := PendingTool(name, [], false)];
      result := Ok(());
    }

    method CaptureToolCall(json: JsonParser, toolCallId: Option<string>, toolName: Option<string>,
            input: Option<string>, providerExecuted: bool)
      returns (result: Result<(), StreamError>)
      modifies this
      ensures match CaptureCall(json, old(Value()), toolCallId, toolName, input, providerExecuted)
              case Ok(next) => result == Ok(()) && Value() == next
              case Err(error) => result == Err(error) && emitted == old(emitted)
    {
      var id :- Required(toolCallId);
      if exists i: nat | i < |toolCalls| :: toolCalls[i].id == id {
        return Err(DuplicateToolCall(id));
      }
      var finalName := NonEmpty(toolName);
      var pendingId := if id in pending then Some(id) else None;
      if pendingId.None? {
        var candidates := Candidates(json, pending, finalName, input);
        if |candidates| == 1 {
          pendingId := Some(Only(candidates));
        }
      }
      var tool := None;
      if pendingId.Some? {
        tool := Some(pending[pendingId.value]);
        pending := pending - {pendingId.value};
      }
      if finalName.Some? && tool.Some? && finalName.value != tool.value.name {
        return Err(ChangedToolName(id));
      }
      if finalName.None? && tool.None? {
        return Err(MissingToolName);
      }
      var name := if finalName.Some? then finalName.value else tool.value.name;
      var arguments := Arguments(input, tool);
      if tool.None? {
        emitted := emitted + [ToolStarted(id, name)];
      }
      toolCalls := toolCalls + [FinishedCall(json, id, name, arguments, pendingId, providerExecuted)];
      result := Ok(());
    }

    method CaptureToolResult(toolCallId: Option<string>, output: Option<string>)
      returns (result: Result<(), StreamError>)
      modifies this
      ensures match CaptureResult(old(Value()), toolCallId, output)
              case Ok(next) => result == Ok(()) && Value() == next
              case Err(error) => result == Err(error) && emitted == old(emitted)
    {
      var id :- Required(toolCallId);
      var index := 0;
      while index < |toolCalls| && toolCalls[index].id != id
        invariant index <= |toolCalls|
        invariant FindCall(toolCalls, id)
               == (var later := FindCall(toolCalls[index..], id); if later.Some?
                   then Some(later.value + index) else None)
      {
        assert toolCalls[index..][1..] == toolCalls[index + 1..];
        index := index + 1;
      }
      if index == |toolCalls| {
        return Err(NoMatchingCall(id));
      }
      var call := toolCalls[index];
      if call.provenance != Provider {
        return Err(ResultForLocalTool(id));
      }
      if output.None? {
        return Err(MissingResult(id));
      }
      toolCalls := toolCalls[index := call.(providerResult := output)];
      result := Ok(());
    }

    method AbsorbBody(json: JsonParser, body: Body) returns (result: Result<(), StreamError>)
      modifies this
      ensures match Absorb(json, old(Value()), body)
              case Ok(next) => result == Ok(()) && Value() == next
              case Err(error) => result == Err(error) && emitted == old(emitted)
    {
      result := Ok(());
      match body {
        case TextDelta(delta) =>
          if delta.Some? {
            content := content + delta.value;
            if delta.value != [] {
              emitted := emitted + [ContentDelta(delta.value)];
            }
          }
        case ReasoningDelta(delta) =>
          if NonEmpty(delta).Some? {
            emitted := emitted + [Reasoning(delta.value)];
          }
        case ToolInputStart(id, toolName) =>
          result := StartToolInput(id, toolName);
        case ToolInputDelta(id, delta) =>
          var id :- Required(id);
          if id !in pending {
            return Err(NoStartEvent(id));
          }
          var tool := pending[id];
          pending := pending[id := tool.(arguments := tool.arguments + (if delta.Some? then delta.value else []))];
        case ToolInputEnd(id) =>
          var id :- Required(id);
          if id !in pending {
            return Err(NoStartEvent(id));
          }
          pending := pending[id := pending[id].(ended := true)];
        case ToolCallEvent(id, toolName, input, providerExecuted) =>
          result := CaptureToolCall(json, id, toolName, input, providerExecuted);
        case ToolResult(id, output) =>
          result := CaptureToolResult(id, output);
        case ErrorEvent(message) =>
          providerError := Some(message);
        case Finish(reason, raw) =>
          if reason.None? {
            return Err(MissingFinishReason);
          }
          var finish := ReasonOf(reason.value);
          if finish.None? {
            return Err(UnknownFinishReason(reason.value));
          }
          if finish.value == Error && providerError.None? {
            providerError := Some(if raw.Some? then raw.value else "Vercel provider reported an error");
          }
          finishReason := finish;
        case Unknown =>
      }
    }

    method ProcessEvent(json: JsonParser, frame: Frame) returns (result: Result<bool, StreamError>)
      modifies this
      ensures match Process(json, old(Value()), frame)
              case Ok((next, finished)) => result == Ok(finished) && Value() == next
              case Err(error) => result == Err(error) && emitted == old(emitted)
    {
      match frame {
        case DoneMarker => return Ok(false);
        case Unreadable => return Err(UnreadableEvent);
        case Object(id, body) =>
          if NonEmpty(id).Some? && generationId.None? {
            generationId := id;
          }
          var absorbed := AbsorbBody(json, body);
          if absorbed.Err? {
            return Err(absorbed.error);
          }
          result := Ok(body.Finish?);
      }
    }
  }

  /** `consume_vercel_sse`, from parsed events on. */
  method ConsumeStream(json: JsonParser, frames: seq<Frame>)
    returns (result: Result<Response, StreamError>, emitted: seq<GatewayEvent>)
    ensures match Consume(json, EMPTY_FOLD, frames)
            case Ok(fold) => result == Conclude(fold)
            case Err(error) => result == Err(error)
    ensures emitted == Delivered(json, EMPTY_FOLD, frames)
  {
    var state := new StreamState();
    for index := 0 to |frames|
      invariant fresh(state)
      invariant Consume(json, state.Value(), frames[index..]) == Consume(json, EMPTY_FOLD, frames)
      invariant Delivered(json, state.Value(), frames[index..]) == Delivered(json, EMPTY_FOLD, frames)
    {
      assert frames[index..][0] == frames[index] && frames[index..][1..] == frames[index + 1..];
      var finished := state.ProcessEvent(json, frames[index]);
      if finished.Err? {
        return Err(finished.error), state.emitted;
      }
      if finished.value {
        if state.providerError.Some? {
          return Err(Rejected(state.providerError.value)), state.emitted;
        }
        if state.pending != map[] {
          return Err(UnfinishedToolInput), state.emitted;
        }
        return Ok(Response(if state.content == [] then None
            else Some(state.content), state.toolCalls, state.generationId, state.finishReason)),
               state.emitted;
      }
    }
    result, emitted := Err(NoFinishEvent), state.emitted;
  }
}
