// What the fold conserves: every tool that was announced is finished or still pending, once, and
// the content is what was streamed.

module VercelTheorems {
  import opened Basics
  import opened Conversations
  import opened VercelFold

  // What the sink has seen.

  function Starts(emitted: seq<GatewayEvent>): seq<(string, string)> {
    if emitted == [] then []
    else
      var last := emitted[|emitted| - 1];
      Starts(emitted[..|emitted| - 1]) + (if last.ToolStarted? then [(last.id, last.name)] else [])
  }

  function Streamed(emitted: seq<GatewayEvent>): string {
    if emitted == [] then []
    else
      var last := emitted[|emitted| - 1];
      Streamed(emitted[..|emitted| - 1]) + (if last.ContentDelta? then last.text else [])
  }

  lemma EmitOne(fold: Fold, event: GatewayEvent)
    ensures Starts(Emit(fold, event).emitted) == Starts(fold.emitted)
            + (if event.ToolStarted? then [(event.id, event.name)] else [])
    ensures Streamed(Emit(fold, event).emitted) == Streamed(fold.emitted)
            + (if event.ContentDelta? then event.text else [])
  {
    assert (fold.emitted + [event])[..|fold.emitted|] == fold.emitted;
  }

  // Where the announced tools are.

  /** The identifier a call was announced under. */
  function Origin(call: ToolCall): (string, string) {
    (if call.provisionalId.Some? then call.provisionalId.value else call.id, call.name)
  }

  function Origins(calls: seq<ToolCall>): (origins: seq<(string, string)>)
    ensures |origins| == |calls| && forall i: nat | i < |calls| :: origins[i] == Origin(calls[i])
  {
    seq(|calls|, i requires 0 <= i < |calls| => Origin(calls[i]))
  }

  ghost function Waiting(pending: map<string, PendingTool>): set<(string, string)> {
    set id | id in pending :: (id, pending[id].name)
  }

  ghost predicate DistinctCalls(calls: seq<ToolCall>) {
    forall i: nat, j: nat | i < j < |calls| :: calls[i].id != calls[j].id
  }

  ghost predicate Apart(calls: seq<ToolCall>, pending: map<string, PendingTool>) {
    forall i: nat | i < |calls| :: calls[i].id !in pending
  }

  ghost predicate Conserved(fold: Fold) {
    && multiset(Starts(fold.emitted)) == multiset(Origins(fold.toolCalls)) + multiset(Waiting(fold.pending))
    && fold.content == Streamed(fold.emitted)
    && DistinctCalls(fold.toolCalls)
    && Apart(fold.toolCalls, fold.pending)
  }

  lemma InWaiting(pending: map<string, PendingTool>, pair: (string, string))
    ensures pair in Waiting(pending) <==> pair.0 in pending && pending[pair.0].name == pair.1
  {
  }

  lemma WaitingInsert(pending: map<string, PendingTool>, id: string, tool: PendingTool)
    requires id !in pending
    ensures multiset(Waiting(pending[id := tool])) == multiset(Waiting(pending)) + multiset{(id, tool.name)}
  {
    forall pair: (string, string) ensures pair in Waiting(pending[id := tool])
        <==> pair in Waiting(pending) + {(id, tool.name)} {
      InWaiting(pending, pair);
      InWaiting(pending[id := tool], pair);
    }
    assert Waiting(pending[id := tool]) == Waiting(pending) + {(id, tool.name)};
    InWaiting(pending, (id, tool.name));
  }

  lemma WaitingRemove(pending: map<string, PendingTool>, id: string)
    requires id in pending
    ensures multiset(Waiting(pending)) == multiset(Waiting(pending - {id})) + multiset{(id, pending[id].name)}
  {
    assert (pending - {id})[id := pending[id]] == pending;
    WaitingInsert(pending - {id}, id, pending[id]);
  }

  lemma WaitingRenamed(pending: map<string, PendingTool>, id: string, tool: PendingTool)
    requires id in pending && tool.name == pending[id].name
    ensures Waiting(pending[id := tool]) == Waiting(pending)
  {
    forall pair: (string, string) ensures pair in Waiting(pending[id := tool]) <==> pair in Waiting(pending) {
      InWaiting(pending, pair);
      InWaiting(pending[id := tool], pair);
    }
  }

  // Every accepted event conserves.

  lemma StartKeeps(fold: Fold, id: Option<string>, toolName: Option<string>)
    requires Conserved(fold)
    ensures StartInput(fold, id, toolName).Ok? ==> Conserved(StartInput(fold, id, toolName).value)
  {
    if StartInput(fold, id, toolName).Ok? {
      EmitOne(fold, ToolStarted(id.value, toolName.value));
      WaitingInsert(fold.pending, id.value, PendingTool(toolName.value, [], false));
    }
  }

  lemma AppendKeepsApart(calls: seq<ToolCall>, call: ToolCall, pending: map<string, PendingTool>, key: Option<string>)
    requires DistinctCalls(calls) && Apart(calls, pending) && !HasCall(calls, call.id)
    requires call.id in pending ==> key == Some(call.id)
    ensures DistinctCalls(calls + [call]) && Apart(calls + [call], WithoutKey(pending, key))
    ensures Origins(calls + [call]) == Origins(calls) + [Origin(call)]
  {
  }

  lemma CaptureKeeps(json: JsonParser, fold: Fold, id: Option<string>, toolName: Option<string>, input: Option<string>,
          providerExecuted: bool)
    requires Conserved(fold)
    ensures var next := CaptureCall(json, fold, id, toolName, input, providerExecuted);
            next.Ok? ==> Conserved(next.value)
  {
    var captured := CaptureCall(json, fold, id, toolName, input, providerExecuted);
    if captured.Ok? {
      var key := PendingFor(json, fold.pending, id.value, NonEmpty(toolName), input);
      var call := captured.value.toolCalls[|fold.toolCalls|];
      if key.Some? {
        CompletionKeeps(fold, call, key.value);
      } else {
        AnnouncementKeeps(fold, call);
      }
    }
  }

  /** A call that completes a pending input takes its place. */
  lemma CompletionKeeps(fold: Fold, call: ToolCall, key: string)
    requires Conserved(fold) && key in fold.pending && !HasCall(fold.toolCalls, call.id)
    requires Origin(call) == (key, fold.pending[key].name) && (call.id in fold.pending ==> key == call.id)
    ensures Conserved(fold.(pending := WithoutKey(fold.pending, Some(key)), toolCalls := fold.toolCalls + [call]))
  {
    AppendKeepsApart(fold.toolCalls, call, fold.pending, Some(key));
    WaitingRemove(fold.pending, key);
  }

  /** A call nobody announced is announced by its own start event. */
  lemma AnnouncementKeeps(fold: Fold, call: ToolCall)
    requires Conserved(fold) && !HasCall(fold.toolCalls, call.id)
    requires Origin(call) == (call.id, call.name) && call.id !in fold.pending
    ensures Conserved(Emit(fold, ToolStarted(call.id, call.name)).(pending := fold.pending,
            toolCalls := fold.toolCalls + [call]))
  {
    AppendKeepsApart(fold.toolCalls, call, fold.pending, None);
    EmitOne(fold, ToolStarted(call.id, call.name));
  }

  lemma AnnotateKeeps(calls: seq<ToolCall>, i: nat, call: ToolCall, pending: map<string, PendingTool>)
    requires i < |calls| && call.id == calls[i].id && Origin(call) == Origin(calls[i])
    requires DistinctCalls(calls) && Apart(calls, pending)
    ensures Origins(calls[i := call]) == Origins(calls)
    ensures DistinctCalls(calls[i := call]) && Apart(calls[i := call], pending)
  {
    forall j: nat | j < |calls| ensures Origins(calls[i := call])[j] == Origins(calls)[j] {
    }
  }

  lemma ResultKeeps(fold: Fold, id: Option<string>, result: Option<string>)
    requires Conserved(fold)
    ensures CaptureResult(fold, id, result).Ok? ==> Conserved(CaptureResult(fold, id, result).value)
  {
    if CaptureResult(fold, id, result).Ok? {
      FindCallFinds(fold.toolCalls, id.value);
      var index := FindCall(fold.toolCalls, id.value).value;
      var call := fold.toolCalls[index];
      AnnotateKeeps(fold.toolCalls, index, call.(providerResult := result), fold.pending);
    }
  }

  lemma ContentKeeps(fold: Fold, delta: string)
    requires Conserved(fold)
    ensures Conserved(AddContent(fold, delta))
  {
    if delta == [] {
      assert fold.content + delta == fold.content;
    } else {
      EmitOne(fold.(content := fold.content + delta), ContentDelta(delta));
    }
  }

  lemma ReasoningKeeps(fold: Fold, delta: string)
    requires Conserved(fold)
    ensures Conserved(Emit(fold, Reasoning(delta)))
  {
    EmitOne(fold, Reasoning(delta));
    assert Starts(fold.emitted) + [] == Starts(fold.emitted) && Streamed(fold.emitted) + [] == Streamed(fold.emitted);
  }

  lemma GrowKeeps(fold: Fold, id: Option<string>, delta: Option<string>)
    requires Conserved(fold)
    ensures GrowInput(fold, id, delta).Ok? ==> Conserved(GrowInput(fold, id, delta).value)
    ensures EndInput(fold, id).Ok? ==> Conserved(EndInput(fold, id).value)
  {
    if Required(id).Ok? && id.value in fold.pending {
      WaitingRenamed(fold.pending, id.value, GrowInput(fold, id, delta).value.pending[id.value]);
      WaitingRenamed(fold.pending, id.value, EndInput(fold, id).value.pending[id.value]);
    }
  }

  lemma TextKeeps(json: JsonParser, fold: Fold, body: Body)
    requires Conserved(fold) && (body.TextDelta? || body.ReasoningDelta?)
    ensures Absorb(json, fold, body).Ok? ==> Conserved(Absorb(json, fold, body).value)
  {
    match body {
      case TextDelta(delta) =>
        if delta.Some? {
          ContentKeeps(fold, delta.value);
        }
      case ReasoningDelta(delta) =>
        if NonEmpty(delta).Some? {
          ReasoningKeeps(fold, delta.value);
        }
    }
  }

  lemma ToolInputKeeps(json: JsonParser, fold: Fold, body: Body)
    requires Conserved(fold) && (body.ToolInputStart? || body.ToolInputDelta? || body.ToolInputEnd?)
    ensures Absorb(json, fold, body).Ok? ==> Conserved(Absorb(json, fold, body).value)
  {
    match body {
      case ToolInputStart(id, toolName) => StartKeeps(fold, id, toolName);
      case ToolInputDelta(id, delta) => GrowKeeps(fold, id, delta);
      case ToolInputEnd(id) => GrowKeeps(fold, id, None);
    }
  }

  lemma AbsorbKeeps(json: JsonParser, fold: Fold, body: Body)
    requires Conserved(fold)
    ensures Absorb(json, fold, body).Ok? ==> Conserved(Absorb(json, fold, body).value)
  {
    match body {
      case TextDelta(_) | ReasoningDelta(_) => TextKeeps(json, fold, body);
      case ToolInputStart(_, _) | ToolInputDelta(_, _) | ToolInputEnd(_) => ToolInputKeeps(json, fold, body);
      case ToolCallEvent(id, toolName, input, providerExecuted) =>
          CaptureKeeps(json, fold, id, toolName, input, providerExecuted);
      case ToolResult(id, result) => ResultKeeps(fold, id, result);
      case ErrorEvent(_) | Finish(_, _) | Unknown =>
    }
  }

  /** Each event the fold accepts keeps the balance. */
  lemma ProcessKeeps(json: JsonParser, fold: Fold, frame: Frame)
    requires Conserved(fold)
    ensures Process(json, fold, frame).Ok? ==> Conserved(Process(json, fold, frame).value.0)
  {
    if frame.Object? {
      AbsorbKeeps(json, NoteGeneration(fold, frame.generationId), frame.body);
    }
  }

  /**
   * However a stream ends, cut off or refused, what was delivered balances: there is a state in which every start
   * delivered is one of the calls finished or inputs pending, once, and the content is what was delivered of it.
   */
  lemma {:induction false} DeliveredIsConserved(json: JsonParser, fold: Fold, frames: seq<Frame>)
    returns (reached: Fold)
    requires Conserved(fold)
    ensures Conserved(reached) && reached.emitted == Delivered(json, fold, frames)
    ensures Consume(json, fold, frames).Ok? ==> reached == Consume(json, fold, frames).value
    decreases |frames|
  {
    reached := fold;
    if frames != [] {
      ProcessKeeps(json, fold, frames[0]);
      var step := Process(json, fold, frames[0]);
      if step.Ok? {
        reached := step.value.0;
        if !step.value.1 {
          reached := DeliveredIsConserved(json, step.value.0, frames[1..]);
        }
      }
    }
  }

  /** A response is handed out only when every announced tool is one of its calls, under one name, exactly once. */
  lemma {:induction false} ResponseIsBalanced(json: JsonParser, frames: seq<Frame>)
    requires Consume(json, EMPTY_FOLD, frames).Ok? && Conclude(Consume(json, EMPTY_FOLD, frames).value).Ok?
    ensures var delivered := Delivered(json, EMPTY_FOLD, frames);
            var response := Conclude(Consume(json, EMPTY_FOLD, frames).value).value;
            && multiset(Starts(delivered)) == multiset(Origins(response.toolCalls))
            && |Starts(delivered)| == |response.toolCalls|
            && DistinctCalls(response.toolCalls)
            && Streamed(delivered) == (if response.content.Some? then response.content.value else [])
  {
    assert Origins([]) == [] && Waiting(map[]) == {};
    var fold := DeliveredIsConserved(json, EMPTY_FOLD, frames);
    assert Waiting(fold.pending) == {};
    assert |multiset(Starts(fold.emitted))| == |Starts(fold.emitted)|;
    assert |multiset(Origins(fold.toolCalls))| == |Origins(fold.toolCalls)|;
  }

  /** After every accepted event: starts emitted equal calls finished plus inputs pending. */
  lemma StartsAreCounted(fold: Fold)
    requires Conserved(fold)
    ensures |Starts(fold.emitted)| == |fold.toolCalls| + |fold.pending|
  {
    WaitingSize(fold.pending);
    assert |multiset(Starts(fold.emitted))| == |Starts(fold.emitted)|;
    assert |multiset(Origins(fold.toolCalls))| == |fold.toolCalls|;
    assert |multiset(Waiting(fold.pending))| == |Waiting(fold.pending)|;
  }

  lemma {:induction false} WaitingSize(pending: map<string, PendingTool>)
    ensures |Waiting(pending)| == |pending|
    decreases |pending|
  {
    if pending == map[] {
      assert Waiting(pending) == {};
    } else {
      var id :| id in pending;
      var rest := pending - {id};
      WaitingSize(rest);
      assert pending == rest[id := pending[id]];
      assert Waiting(pending) == Waiting(rest) + {(id, pending[id].name)};
      assert (id, pending[id].name) !in Waiting(rest);
    }
  }
}
