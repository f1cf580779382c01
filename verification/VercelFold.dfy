// The Vercel stream fold: parsed stream events in, one response out, and a start event for every tool.

module VercelFold {
  import opened Basics
  import opened Conversations

  type JsonValue(!new, ==)

  /** The JSON parser, as far as the fold depends on it. */
  type JsonParser = string -> Option<JsonValue>

  datatype StreamError =
    | UnreadableEvent
    | MissingField
    | DuplicateToolInput(id: string)
    | NoStartEvent(id: string)
    | DuplicateToolCall(id: string)
    | ChangedToolName(id: string)
    | MissingToolName
    | NoMatchingCall(id: string)
    | ResultForLocalTool(id: string)
    | MissingResult(id: string)
    | MissingFinishReason
    | UnknownFinishReason(reason: string)
    | UnfinishedToolInput
    | NoFinishEvent
    | Rejected(message: string)

  datatype FinishReason = Stop | Length | ContentFilter | ToolCalls | Error | Other

  /** The fields of one event, absent or of the wrong type as None; `input` and `result` as JSON text. */
  datatype Body =
    | TextDelta(delta: Option<string>)
    | ReasoningDelta(delta: Option<string>)
    | ToolInputStart(id: Option<string>, toolName: Option<string>)
    | ToolInputDelta(id: Option<string>, delta: Option<string>)
    | ToolInputEnd(id: Option<string>)
    | ToolCallEvent(toolCallId: Option<string>, toolName: Option<string>, input: Option<string>, providerExecuted: bool)
    | ToolResult(toolCallId: Option<string>, result: Option<string>)
    | ErrorEvent(message: string)
    | Finish(reason: Option<string>, raw: Option<string>)
    | Unknown

  datatype Frame = DoneMarker | Unreadable | Object(generationId: Option<string>, body: Body)

  datatype GatewayEvent = ContentDelta(text: string) | Reasoning(text: string) | ToolStarted(id: string, name: string)

  datatype PendingTool = PendingTool(name: string, arguments: string, ended: bool)

  /** The stream state, with the gateway events emitted so far. */
  datatype Fold = Fold(
    content: string,
    toolCalls: seq<ToolCall>,
    pending: map<string, PendingTool>,
    generationId: Option<string>,
    finishReason: Option<FinishReason>,
    providerError: Option<string>,
    emitted: seq<GatewayEvent>
  )

  const EMPTY_FOLD := Fold([], [], map[], None, None, None, [])

  // Steps.

  function NonEmpty(text: Option<string>): Option<string> {
    if text == Some([]) then None else text
  }

  function Required(text: Option<string>): Result<string, StreamError> {
    if NonEmpty(text).Some? then Ok(text.value) else Err(MissingField)
  }

  predicate HasCall(calls: seq<ToolCall>, id: string) {
    exists i: nat | i < |calls| :: calls[i].id == id
  }

  function Emit(fold: Fold, event: GatewayEvent): Fold {
    fold.(emitted := fold.emitted + [event])
  }

  function AddContent(fold: Fold, delta: string): Fold {
    var grown := fold.(content := fold.content + delta);
    if delta == [] then grown else Emit(grown, ContentDelta(delta))
  }

  function StartInput(fold: Fold, id: Option<string>, toolName: Option<string>): Result<Fold, StreamError> {
    var id :- Required(id);
    var name :- Required(toolName);
    if id in fold.pending || HasCall(fold.toolCalls, id) then Err(DuplicateToolInput(id))
    else Ok(Emit(fold, ToolStarted(id, name)).(pending := fold.pending[id := PendingTool(name, [], false)]))
  }

  function GrowInput(fold: Fold, id: Option<string>, delta: Option<string>): Result<Fold, StreamError> {
    var id :- Required(id);
    if id !in fold.pending then Err(NoStartEvent(id))
    else
      var tool := fold.pending[id];
      Ok(fold.(pending :=
          fold.pending[id := tool.(arguments := tool.arguments + (if delta.Some? then delta.value else []))]))
  }

  function EndInput(fold: Fold, id: Option<string>): Result<Fold, StreamError> {
    var id :- Required(id);
    if id !in fold.pending then Err(NoStartEvent(id))
    else Ok(fold.(pending := fold.pending[id := fold.pending[id].(ended := true)]))
  }

  predicate Equivalent(json: JsonParser, left: string, right: string) {
    left == right || (json(left).Some? && json(right).Some? && json(left).value == json(right).value)
  }

  /** A finished input that could be the call's under another id. */
  predicate Matches(json: JsonParser, tool: PendingTool, name: Option<string>, arguments: Option<string>) {
    && tool.ended
    && (name.None? || name.value == tool.name)
    && (arguments.None? || Equivalent(json, arguments.value, tool.arguments))
  }

  function Candidates(json: JsonParser, pending: map<string, PendingTool>, name: Option<string>,
          arguments: Option<string>): set<string> {
    set id | id in pending && Matches(json, pending[id], name, arguments)
  }

  lemma OnlyOneElement(ids: set<string>)
    requires |ids| == 1
    ensures forall x, y :: x in ids && y in ids ==> x == y
  {
    forall x, y | x in ids && y in ids ensures x == y {
      assert |ids - {x}| == 0;
      assert x != y ==> y in ids - {x};
    }
  }

  function Only(ids: set<string>): (id: string)
    requires |ids| == 1
    ensures id in ids
  {
    OnlyOneElement(ids);
    assert ids != {};
    var id :| id in ids;
    id
  }

  /** The pending input the call completes: its own, or the only candidate. */
  function PendingFor(json: JsonParser, pending: map<string, PendingTool>, id: string, name: Option<string>,
          arguments: Option<string>): (found: Option<string>)
    ensures found.Some? ==> found.value in pending
    ensures found == Some(id) <==> id in pending
  {
    if id in pending then Some(id)
    else
      var candidates := Candidates(json, pending, name, arguments);
      if |candidates| == 1 then Some(Only(candidates)) else None
  }

  function WithoutKey(pending: map<string, PendingTool>, key: Option<string>): map<string, PendingTool> {
    if key.Some? then pending - {key.value} else pending
  }

  function Arguments(input: Option<string>, tool: Option<PendingTool>): string {
    if input.Some? then input.value
    else if tool.Some? && tool.value.arguments != [] then tool.value.arguments
    else "{}"
  }

  function FinishedCall(json: JsonParser, id: string, name: string, arguments: string, key: Option<string>,
          providerExecuted: bool): ToolCall {
    ToolCall(id, name, arguments, if json(arguments).Some? then Valid else MalformedJson,
             if key == Some(id) then None else key, None, if providerExecuted then Provider else FxLocal)
  }

  /** `capture_vercel_tool_call`. */
  function CaptureCall(json: JsonParser, fold: Fold, id: Option<string>, toolName: Option<string>,
          input: Option<string>, providerExecuted: bool): Result<Fold, StreamError> {
    var id :- Required(id);
    if HasCall(fold.toolCalls, id) then Err(DuplicateToolCall(id))
    else
      var finalName := NonEmpty(toolName);
      var key := PendingFor(json, fold.pending, id, finalName, input);
      var tool := if key.Some? then Some(fold.pending[key.value]) else None;
      if finalName.Some? && tool.Some? && finalName.value != tool.value.name then Err(ChangedToolName(id))
      else if finalName.None? && tool.None? then Err(MissingToolName)
      else
        var name := if finalName.Some? then finalName.value else tool.value.name;
        var call := FinishedCall(json, id, name, Arguments(input, tool), key, providerExecuted);
        var started := if tool.None? then Emit(fold, ToolStarted(id, name)) else fold;
        Ok(started.(pending := WithoutKey(fold.pending, key), toolCalls := fold.toolCalls + [call]))
  }

  /** The index of the first call with the identifier. */
  function FindCall(calls: seq<ToolCall>, id: string): Option<nat> {
    if calls == [] then None
    else if calls[0].id == id then Some(0)
    else
      var later := FindCall(calls[1..], id);
      if later.Some? then Some(later.value + 1) else None
  }

  lemma {:induction false} FindCallFinds(calls: seq<ToolCall>, id: string)
    ensures FindCall(calls, id).Some? <==> HasCall(calls, id)
    ensures FindCall(calls, id).Some? ==> FindCall(calls, id).value < |calls|
                                          && calls[FindCall(calls, id).value].id == id
  {
    if calls != [] {
      FindCallFinds(calls[1..], id);
      if calls[0].id != id && HasCall(calls, id) {
        var i: nat :| i < |calls| && calls[i].id == id;
        assert calls[1..][i - 1].id == id;
      }
    }
  }

  /** `capture_vercel_tool_result`. */
  function CaptureResult(fold: Fold, id: Option<string>, result: Option<string>): Result<Fold, StreamError> {
    var id :- Required(id);
    var index := FindCall(fold.toolCalls, id);
    if index.None? then Err(NoMatchingCall(id))
    else
      FindCallFinds(fold.toolCalls, id);
      var call := fold.toolCalls[index.value];
      if call.provenance.FxLocal? then Err(ResultForLocalTool(id))
      else if result.None? then Err(MissingResult(id))
      else Ok(fold.(toolCalls := fold.toolCalls[index.value := call.(providerResult := result)]))
  }

  function ReasonOf(text: string): Option<FinishReason> {
    match text
    case "stop" => Some(Stop)
    case "length" => Some(Length)
    case "content-filter" => Some(ContentFilter)
    case "tool-calls" => Some(ToolCalls)
    case "error" => Some(Error)
    case "other" => Some(Other)
    case _ => None
  }

  function FinishWith(fold: Fold, reason: Option<string>, raw: Option<string>): Result<Fold, StreamError> {
    if reason.None? then Err(MissingFinishReason)
    else
      var finish := ReasonOf(reason.value);
      if finish.None? then Err(UnknownFinishReason(reason.value))
      else
        var error :=
          if finish.value.Error? && fold.providerError.None? then
            Some(if raw.Some? then raw.value else "Vercel provider reported an error")
          else fold.providerError;
        Ok(fold.(providerError := error, finishReason := finish))
  }

  function NoteGeneration(fold: Fold, generationId: Option<string>): Fold {
    if fold.generationId.None? && NonEmpty(generationId).Some? then fold.(generationId := generationId) else fold
  }

  function Absorb(json: JsonParser, fold: Fold, body: Body): Result<Fold, StreamError> {
    match body
    case TextDelta(delta) => Ok(if delta.Some? then AddContent(fold, delta.value) else fold)
    case ReasoningDelta(delta) => Ok(if NonEmpty(delta).Some? then Emit(fold, Reasoning(delta.value)) else fold)
    case ToolInputStart(id, toolName) => StartInput(fold, id, toolName)
    case ToolInputDelta(id, delta) => GrowInput(fold, id, delta)
    case ToolInputEnd(id) => EndInput(fold, id)
    case ToolCallEvent(id, toolName, input, providerExecuted) =>
        CaptureCall(json, fold, id, toolName, input, providerExecuted)
    case ToolResult(id, result) => CaptureResult(fold, id, result)
    case ErrorEvent(message) => Ok(fold.(providerError := Some(message)))
    case Finish(reason, raw) => FinishWith(fold, reason, raw)
    case Unknown => Ok(fold)
  }

  /** `process_vercel_event`: the fold after an accepted event, and whether the stream has finished. */
  function Process(json: JsonParser, fold: Fold, frame: Frame): Result<(Fold, bool), StreamError> {
    match frame
    case DoneMarker => Ok((fold, false))
    case Unreadable => Err(UnreadableEvent)
    case Object(generationId, body) =>
      var next :- Absorb(json, NoteGeneration(fold, generationId), body);
      Ok((next, body.Finish?))
  }

  datatype Response = Response(content: Option<string>, toolCalls: seq<ToolCall>, generationId: Option<string>,
      finishReason: Option<FinishReason>)

  /** `VercelStreamState::finish`. */
  function Conclude(fold: Fold): Result<Response, StreamError> {
    if fold.providerError.Some? then Err(Rejected(fold.providerError.value))
    else if fold.pending != map[] then Err(UnfinishedToolInput)
    else Ok(Response(if fold.content == [] then None
        else Some(fold.content), fold.toolCalls, fold.generationId, fold.finishReason))
  }

  /** The fold at the end of a stream, if every event up to a finish is accepted. */
  function Consume(json: JsonParser, fold: Fold, frames: seq<Frame>): Result<Fold, StreamError>
    decreases |frames|
  {
    if frames == [] then Err(NoFinishEvent)
    else
      var (next, finished) :- Process(json, fold, frames[0]);
      if finished then Ok(next) else Consume(json, next, frames[1..])
  }

  /** The events delivered by then: those of every event accepted before the stream ends or fails. */
  function Delivered(json: JsonParser, fold: Fold, frames: seq<Frame>): seq<GatewayEvent>
    decreases |frames|
  {
    if frames == [] then fold.emitted
    else match Process(json, fold, frames[0])
      case Err(_) => fold.emitted
      case Ok((next, finished)) => if finished then next.emitted else Delivered(json, next, frames[1..])
  }
}
