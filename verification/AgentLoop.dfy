// The agent loop: project the conversation, ask the model, run its calls, answer them, again.

module AgentLoop {
  import opened Basics
  import opened Conversations
  import opened Projections
  import opened ProjectionTheorems
  import opened ScopedContext
  import opened ToolBatches
  import opened ToolExecution

  datatype GatewayResponse = GatewayResponse(content: Option<string>, toolCalls: seq<ToolCall>, deliveryAmbiguous: bool)

  datatype GatewayError = RequestCancelled | RequestFailed(failure: Failure)

  type Gateway = (World, seq<ChatMessage>) -> (World, Result<GatewayResponse, GatewayError>)

  /** `maxSteps` zero means no limit. */
  datatype Agent = Agent(
    env: Environment,
    gateway: Gateway,
    provider: Option<Provider>,
    maxSteps: nat,
    historyTokens: U64,
    scheduler: Scheduler
  )

  /** The state of a run; `requests` are the messages of every request sent so far. */
  datatype Conversation = Conversation(
    messages: seq<ChatMessage>,
    output: string,
    steps: nat,
    deliveryAmbiguous: bool,
    st: State,
    requests: seq<seq<ChatMessage>>
  )

  datatype StopReason = Complete | StepLimit | Cancelled

  datatype AgentError = Gateway(error: GatewayError) | Refused(failure: Failure)

  datatype Turned = Continue(conversation: Conversation) | Stop(conversation: Conversation, reason: StopReason)
                  | Broken(sent: seq<seq<ChatMessage>>, error: AgentError) | Stuck(sent: seq<seq<ChatMessage>>)

  // The pieces of a turn.

  function AssistantMessage(response: GatewayResponse): ChatMessage {
    ChatMessage(Assistant, response.content, None, None, response.toolCalls, false, Default)
  }

  /** `insert_stable_system_context`. */
  function InsertContext(messages: seq<ChatMessage>, delta: Option<string>): seq<ChatMessage> {
    if delta.None? then messages
    else
      var prefixEnd := SystemPrefix(messages);
      messages[..prefixEnd] + [TextMessage(System, delta.value)] + messages[prefixEnd..]
  }

  function Reply(call: ToolCall, outcome: Outcome): ChatMessage {
    ChatMessage(Tool, Some(outcome.output.content.Text()), Some(call.id), Some(call.name), [],
        outcome.permissionFeedback, Default)
  }

  function Replies(calls: seq<ToolCall>, outcomes: seq<Outcome>): (replies: seq<ChatMessage>)
    requires |calls| == |outcomes|
    ensures |replies| == |calls|
    ensures forall i: nat | i < |calls| :: replies[i] == Reply(calls[i], outcomes[i])
  {
    seq(|calls|, i requires 0 <= i < |calls| => Reply(calls[i], outcomes[i]))
  }

  function Request(agent: Agent, c: Conversation): seq<ChatMessage> {
    Project(c.messages, agent.historyTokens).messages
  }

  /** The conversation once the request is out and the world has moved on. */
  function Sent(agent: Agent, c: Conversation, w: World): Conversation {
    c.(steps := c.steps + 1, requests := c.requests + [Request(agent, c)], st := c.st.(world := w))
  }

  function Received(c: Conversation, response: GatewayResponse): Conversation {
    c.(messages := c.messages + [AssistantMessage(response)],
       output := if response.content.Some? then c.output + response.content.value else c.output,
       deliveryAmbiguous := c.deliveryAmbiguous || response.deliveryAmbiguous)
  }

  function Informed(c: Conversation, w: World, delta: Option<string>): Conversation {
    c.(messages := InsertContext(c.messages, delta), st := c.st.(world := w))
  }

  function Answered(c: Conversation, st: State, calls: seq<ToolCall>, outcomes: seq<Outcome>): Conversation
    requires |calls| == |outcomes|
  {
    c.(messages := c.messages + Replies(calls, outcomes), st := st)
  }

  // The specification of a turn, with its calls run one after another.

  lemma {:induction false} SerialLength(env: Environment, st: State, calls: seq<ToolCall>,
          deferred: seq<bool>, index: nat)
    requires env.Terminating() && index <= |calls|
    ensures Serial(env, st, calls, deferred, index).1.Ok?
            ==> |Serial(env, st, calls, deferred, index).1.value| == |calls| - index
    decreases |calls| - index
  {
    if index < |calls| && !env.cancelled(st.world) {
      if IsDeferred(deferred, index) {
        SerialLength(env, Defer(st, calls[index]), calls, deferred, index + 1);
      } else {
        var (ran, outcome) := Execute(env, Start(st, [calls[index]]), calls[index]);
        if outcome.Ok? {
          SerialLength(env, Finish(env, ran, calls[index], outcome.value).0, calls, deferred, index + 1);
        }
      }
    }
  }

  ghost function AnswerSerially(agent: Agent, c: Conversation, calls: seq<ToolCall>): Turned
    requires agent.env.Terminating()
  {
    var (told, selection) := Select(agent.env, agent.provider, c.st.world, calls);
    match selection
    case Err(failure) => Broken(c.requests, Refused(failure))
    case Ok(selection) =>
      var informed := Informed(c, told, selection.delta);
      var (st, outcomes) := Serial(agent.env, informed.st, calls, selection.deferred, 0);
      match outcomes
      case Err(failure) => Broken(c.requests, Refused(failure))
      case Ok(outcomes) =>
        SerialLength(agent.env, informed.st, calls, selection.deferred, 0);
        Continue(Answered(informed, st, calls, outcomes))
  }

  ghost function TurnSerially(agent: Agent, c: Conversation): Turned
    requires agent.env.Terminating()
  {
    if agent.env.cancelled(c.st.world) then Stop(c, Cancelled)
    else
      var (w, response) := agent.gateway(c.st.world, Request(agent, c));
      var sent := Sent(agent, c, w);
      match response
      case Err(error) =>
        if error.RequestCancelled? && agent.env.cancelled(w) then Stop(sent, Cancelled)
            else Broken(sent.requests, Gateway(error))
      case Ok(response) =>
        var received := Received(sent, response);
        if agent.env.cancelled(w) then Stop(received, Cancelled)
        else if response.toolCalls == [] then Stop(received, Complete)
        else AnswerSerially(agent, received, response.toolCalls)
  }

  // Well-formedness through a turn.

  predicate NoOpenCalls(messages: seq<ChatMessage>) {
    messages == [] || CallsOf(messages[|messages| - 1]) == []
  }

  lemma {:induction false} WellFormedEnds(messages: seq<ChatMessage>)
    requires WellFormed(messages)
    ensures NoOpenCalls(messages)
  {
    WellFormedAnswersEveryCall(messages);
    if messages != [] {
      assert AnsweredAt(messages, |messages| - 1);
    }
  }

  /** An assistant message fits at the end exactly if it calls no tool. */
  lemma {:induction false} AssistantAtEnd(messages: seq<ChatMessage>, response: GatewayResponse)
    requires WellFormed(messages)
    ensures WellFormed(messages + [AssistantMessage(response)]) <==> response.toolCalls == []
  {
    var last := [AssistantMessage(response)];
    if response.toolCalls == [] {
      PlainMessagesAreWellFormed(last);
      WellFormedConcat(messages, last);
    } else if WellFormed(messages + last) {
      WellFormedEnds(messages + last);
    }
  }

  lemma RepliesAnswer(response: GatewayResponse, outcomes: seq<Outcome>)
    requires |response.toolCalls| == |outcomes|
    ensures WellFormed([AssistantMessage(response)] + Replies(response.toolCalls, outcomes))
  {
    OneTurn(AssistantMessage(response), Replies(response.toolCalls, outcomes));
  }

  lemma {:induction false} InsertIsWellFormed(messages: seq<ChatMessage>, delta: Option<string>)
    requires WellFormed(messages)
    ensures WellFormed(InsertContext(messages, delta))
  {
    if delta.Some? {
      var prefixEnd := SystemPrefix(messages);
      var rule := [TextMessage(System, delta.value)];
      SystemPrefixSplits(messages);
      PlainMessagesAreWellFormed(rule);
      WellFormedConcat(messages[..prefixEnd], rule);
      WellFormedConcat(messages[..prefixEnd] + rule, messages[prefixEnd..]);
    }
  }

  lemma {:induction false} SystemPrefixStops(a: seq<ChatMessage>, b: seq<ChatMessage>)
    requires b != [] && !b[0].role.System?
    ensures SystemPrefix(a + b) == SystemPrefix(a)
  {
    if a == [] {
      assert a + b == b;
    } else {
      assert (a + b)[1..] == a[1..] + b;
      SystemPrefixStops(a[1..], b);
    }
  }

  /** New rules go to the front, so they do not come between a call and its answer. */
  lemma InsertBeforeTurn(messages: seq<ChatMessage>, delta: Option<string>, turn: seq<ChatMessage>)
    requires turn != [] && !turn[0].role.System?
    ensures InsertContext(messages + turn, delta) == InsertContext(messages, delta) + turn
  {
    if delta.Some? {
      SystemPrefixStops(messages, turn);
      CutConcat(messages, turn, SystemPrefix(messages));
      var front := messages[..SystemPrefix(messages)] + [TextMessage(System, delta.value)];
      Regroup(front, messages[SystemPrefix(messages)..], turn);
    }
  }

  lemma CutConcat<T>(a: seq<T>, b: seq<T>, n: nat)
    requires n <= |a|
    ensures (a + b)[..n] == a[..n] && (a + b)[n..] == a[n..] + b
  {
  }

  lemma {:induction false} AnsweredIsWellFormed(messages: seq<ChatMessage>, response: GatewayResponse,
          delta: Option<string>, outcomes: seq<Outcome>)
    requires WellFormed(messages) && |response.toolCalls| == |outcomes|
    ensures WellFormed(InsertContext(messages + [AssistantMessage(response)], delta)
            + Replies(response.toolCalls, outcomes))
  {
    var asked := [AssistantMessage(response)];
    InsertBeforeTurn(messages, delta, asked);
    InsertIsWellFormed(messages, delta);
    RepliesAnswer(response, outcomes);
    TurnAtEnd(InsertContext(messages, delta), asked, Replies(response.toolCalls, outcomes));
  }

  lemma {:induction false} TurnAtEnd(messages: seq<ChatMessage>, asked: seq<ChatMessage>, replies: seq<ChatMessage>)
    requires WellFormed(messages) && WellFormed(asked + replies)
    ensures WellFormed(messages + asked + replies)
  {
    WellFormedConcat(messages, asked + replies);
    Regroup(messages, asked, replies);
  }

  // The turn as the loop takes it.

  ghost predicate AllWellFormed(requests: seq<seq<ChatMessage>>) {
    forall i: nat | i < |requests| :: WellFormed(requests[i])
  }

  ghost predicate Sound(c: Conversation) {
    WellFormed(c.messages) && AllWellFormed(c.requests)
  }

  /** Cancellation may leave the last calls open; nothing else may. */
  ghost predicate SoundTurn(t: Turned) {
    match t
    case Continue(c) => Sound(c)
    case Stop(c, reason) => AllWellFormed(c.requests)
        && (WellFormed(c.messages) <==> reason.Cancelled? ==> NoOpenCalls(c.messages))
    case Broken(sent, _) => AllWellFormed(sent)
    case Stuck(sent) => AllWellFormed(sent)
  }

  /** What the loop may rely on about a batch. */
  lemma BatchFacts(agent: Agent, st: State, calls: seq<ToolCall>, deferred: seq<bool>)
    requires agent.env.Terminating() && SparesReads(agent.env, calls, deferred)
    ensures var (end, result) := Batch(agent.env, st, calls, deferred, agent.scheduler);
            && (result.Completed? ==> |result.outcomes| == |calls|)
            && (Generous(agent.env, agent.scheduler) ==> !result.StillPolling?)
            && (agent.env.Lawful() && !result.StillPolling?
                ==> MatchesSerial(agent.env, st, calls, deferred, end, result))
  {
    BatchAnswersAll(agent.env, st, calls, deferred, agent.scheduler, [], 0);
    if Generous(agent.env, agent.scheduler) {
      GenerousBatchEnds(agent.env, st, calls, deferred, agent.scheduler, [], 0);
    }
    if agent.env.Lawful() {
      BatchMatchesSerial(agent.env, st, calls, deferred, agent.scheduler);
    }
  }

  method AnswerCalls(agent: Agent, c: Conversation, calls: seq<ToolCall>, ghost before: seq<ChatMessage>,
          ghost response: GatewayResponse)
    returns (t: Turned)
    requires agent.env.Terminating()
    requires c.messages == before + [AssistantMessage(response)] && calls == response.toolCalls
    ensures WellFormed(before) && AllWellFormed(c.requests) ==> SoundTurn(t)
    ensures !t.Stop?
    ensures agent.env.Lawful() && !t.Stuck? ==> t == AnswerSerially(agent, c, calls)
    ensures Generous(agent.env, agent.scheduler) ==> !t.Stuck?
  {
    var told, selection := SelectScopedContext(agent.env, agent.provider, c.st.world, calls);
    if selection.Err? {
      return Broken(c.requests, Refused(selection.error));
    }
    SelectionSparesReads(agent.env, agent.provider, c.st.world, calls);
    var informed := Informed(c, told, selection.value.delta);
    var st, batch := ExecuteToolBatch(agent.env, informed.st, calls, selection.value.deferred, agent.scheduler);
    BatchFacts(agent, informed.st, calls, selection.value.deferred);
    match batch {
      case Failed(failure) => t := Broken(c.requests, Refused(failure));
      case StillPolling => t := Stuck(c.requests);
      case Completed(outcomes) =>
        t := Continue(Answered(informed, st, calls, outcomes));
        if WellFormed(before) {
          AnsweredIsWellFormed(before, response, selection.value.delta, outcomes);
        }
    }
  }

  /** What the model's answer does to a sound conversation. */
  lemma ReceivedIsSound(agent: Agent, c: Conversation, w: World, response: GatewayResponse)
    requires Sound(c)
    ensures NoOpenCalls(c.messages)
    ensures AllWellFormed(Sent(agent, c, w).requests)
    ensures var received := Received(Sent(agent, c, w), response);
            && AllWellFormed(received.requests)
            && (WellFormed(received.messages) <==> response.toolCalls == [])
            && (NoOpenCalls(received.messages) <==> response.toolCalls == [])
  {
    WellFormedEnds(c.messages);
    ProjectionIsWellFormed(c.messages, agent.historyTokens);
    AssistantAtEnd(c.messages, response);
  }

  lemma SentIsSound(agent: Agent, c: Conversation, w: World)
    requires Sound(c)
    ensures NoOpenCalls(c.messages) && AllWellFormed(Sent(agent, c, w).requests)
  {
    WellFormedEnds(c.messages);
    ProjectionIsWellFormed(c.messages, agent.historyTokens);
  }

  method TakeTurn(agent: Agent, c: Conversation) returns (t: Turned)
    requires agent.env.Terminating()
    ensures Sound(c) ==> SoundTurn(t)
    ensures t.Stop? ==> !t.reason.StepLimit?
    ensures agent.env.Lawful() && !t.Stuck? ==> t == TurnSerially(agent, c)
    ensures Generous(agent.env, agent.scheduler) ==> !t.Stuck?
  {
    if Sound(c) {
      SentIsSound(agent, c, c.st.world);
    }
    if agent.env.cancelled(c.st.world) {
      return Stop(c, Cancelled);
    }
    var projection := ProjectMessages(c.messages, agent.historyTokens);
    var (w, answer) := agent.gateway(c.st.world, projection.messages);
    var sent := Sent(agent, c, w);
    if answer.Err? {
      return if answer.error.RequestCancelled? && agent.env.cancelled(w) then Stop(sent, Cancelled)
             else Broken(sent.requests, Gateway(answer.error));
    }
    var response := answer.value;
    var received := Received(sent, response);
    if Sound(c) {
      ReceivedIsSound(agent, c, w, response);
    }
    if agent.env.cancelled(w) {
      return Stop(received, Cancelled);
    }
    if response.toolCalls == [] {
      return Stop(received, Complete);
    }
    t := AnswerCalls(agent, received, response.toolCalls, c.messages, response);
  }

  // Whole runs.

  function Opening(history: seq<ChatMessage>, prompt: string, st: State): Conversation {
    Conversation(history + [TextMessage(User, prompt)], [], 0, false, st, [])
  }

  predicate MayStep(agent: Agent, steps: nat) {
    agent.maxSteps == 0 || steps < agent.maxSteps
  }

  /**
   * The turns from `c` on, taken as `turn` takes them, at most `turns` of them; `Continue` means it is still going
   * then.
   */
  ghost function RunTurns(agent: Agent, turn: Conversation -> Turned, c: Conversation, turns: nat): Turned
    decreases turns
  {
    if !MayStep(agent, c.steps) then Stop(c, StepLimit)
    else if turns == 0 then Continue(c)
    else match turn(c)
      case Continue(next) => RunTurns(agent, turn, next, turns - 1)
      case ended => ended
  }

  ghost function SerialTurn(agent: Agent): Conversation -> Turned
    requires agent.env.Terminating()
  {
    c => TurnSerially(agent, c)
  }

  /** The run from `c`, turn by turn in series. */
  ghost function RunSerially(agent: Agent, c: Conversation, turns: nat): Turned
    requires agent.env.Terminating()
  {
    RunTurns(agent, SerialTurn(agent), c, turns)
  }

  lemma OpeningIsSound(history: seq<ChatMessage>, prompt: string, st: State)
    requires WellFormed(history)
    ensures Sound(Opening(history, prompt, st))
  {
    PlainMessagesAreWellFormed([TextMessage(User, prompt)]);
    WellFormedConcat(history, [TextMessage(User, prompt)]);
  }

  lemma TurnByTurn(agent: Agent, turn: Conversation -> Turned, c: Conversation, left: nat, fewer: nat)
    requires MayStep(agent, c.steps) && left == fewer + 1
    ensures RunTurns(agent, turn, c, left)
            == if turn(c).Continue? then RunTurns(agent, turn, turn(c).conversation, fewer) else turn(c)
  {
  }

  /** `run_controlled`: every request is well formed, and so is every result but a cancelled one with open calls. */
  method RunControlled(agent: Agent, history: seq<ChatMessage>, prompt: string, st: State, turns: nat)
    returns (t: Turned)
    requires agent.env.Terminating()
    ensures WellFormed(history) ==> SoundTurn(t)
    ensures agent.env.Lawful() && !t.Stuck? ==> t == RunSerially(agent, Opening(history, prompt, st), turns)
    ensures Generous(agent.env, agent.scheduler) ==> !t.Stuck?
  {
    var c := Opening(history, prompt, st);
    if WellFormed(history) {
      OpeningIsSound(history, prompt, st);
    }
    var left := turns;
    while MayStep(agent, c.steps)
      invariant WellFormed(history) ==> Sound(c)
      invariant agent.env.Lawful() ==> RunTurns(agent, SerialTurn(agent), c, left)
                                       == RunSerially(agent, Opening(history, prompt, st), turns)
      decreases left
    {
      if left == 0 {
        return Continue(c);
      }
      t := TakeTurn(agent, c);
      var fewer := left - 1;
      TurnByTurn(agent, SerialTurn(agent), c, left, fewer);
      if !t.Continue? {
        return;
      }
      c, left := t.conversation, fewer;
    }
    t := Stop(c, StepLimit);
  }

  // What a turn adds to the conversation.

  /** The answer to a call repeats what came of it, word for word, and says whether that is the user's feedback. */
  predicate IsReplyTo(reply: ChatMessage, call: ToolCall, outcome: Outcome) {
    && reply.role == Tool && reply.toolCallId == Some(call.id) && reply.toolName == Some(call.name)
    && reply.content == Some(outcome.output.content.Text())
    && reply.permissionFeedback == outcome.permissionFeedback
    && reply.toolCalls == [] && reply.cachePolicy == Default
  }

  predicate AreRules(rules: seq<ChatMessage>, delta: Option<string>) {
    if delta.None? then rules == []
    else |rules| == 1 && rules[0].role == System && rules[0].content == delta && rules[0].toolCalls == []
  }

  predicate IsSaid(said: ChatMessage, response: GatewayResponse) {
    said.role == Assistant && said.content == response.content && said.toolCalls == response.toolCalls
    && !said.permissionFeedback
  }

  /**
   * After a turn that goes on, the conversation is what it was, with new rules behind its system messages and, at its
   * end, what the model said and the outcome of every call it made; what was sent is the projection of what it was.
   */
  lemma TurnSays(agent: Agent, c: Conversation)
    returns (response: GatewayResponse, selection: Selection, rules: seq<ChatMessage>, said: ChatMessage,
             outcomes: seq<Outcome>, replies: seq<ChatMessage>)
    requires agent.env.Terminating() && TurnSerially(agent, c).Continue?
    ensures var (w, answer) := agent.gateway(c.st.world, Project(c.messages, agent.historyTokens).messages);
            var (told, selected) := Select(agent.env, agent.provider, w, response.toolCalls);
            && answer == Ok(response) && response.toolCalls != [] && selected == Ok(selection)
            && Serial(agent.env, c.st.(world := told), response.toolCalls, selection.deferred, 0).1 == Ok(outcomes)
    ensures AreRules(rules, selection.delta) && IsSaid(said, response)
    ensures |replies| == |outcomes| == |response.toolCalls|
    ensures forall i: nat | i < |replies| :: IsReplyTo(replies[i], response.toolCalls[i], outcomes[i])
    ensures var next, p := TurnSerially(agent, c).conversation, SystemPrefix(c.messages);
            && next.messages == c.messages[..p] + rules + c.messages[p..] + [said] + replies
            && next.requests == c.requests + [Project(c.messages, agent.historyTokens).messages]
            && next.steps == c.steps + 1
  {
    response, selection, outcomes := TurnUnfolds(agent, c);
    rules := if selection.delta.None? then [] else [TextMessage(System, selection.delta.value)];
    said := AssistantMessage(response);
    replies := Replies(response.toolCalls, outcomes);
    MessagesGrow(c.messages, selection.delta, rules, said, replies);
  }

  lemma TurnUnfolds(agent: Agent, c: Conversation)
    returns (response: GatewayResponse, selection: Selection, outcomes: seq<Outcome>)
    requires agent.env.Terminating() && TurnSerially(agent, c).Continue?
    ensures var (w, answer) := agent.gateway(c.st.world, Project(c.messages, agent.historyTokens).messages);
            var (told, selected) := Select(agent.env, agent.provider, w, response.toolCalls);
            && answer == Ok(response) && response.toolCalls != [] && selected == Ok(selection)
            && Serial(agent.env, c.st.(world := told), response.toolCalls, selection.deferred, 0).1 == Ok(outcomes)
    ensures |outcomes| == |response.toolCalls|
    ensures var next := TurnSerially(agent, c).conversation;
            && next.messages == InsertContext(c.messages + [AssistantMessage(response)], selection.delta)
                + Replies(response.toolCalls, outcomes)
            && next.requests == c.requests + [Project(c.messages, agent.historyTokens).messages]
            && next.steps == c.steps + 1
  {
    var (w, answer) := agent.gateway(c.st.world, Request(agent, c));
    response := answer.value;
    var calls := response.toolCalls;
    var (told, selected) := Select(agent.env, agent.provider, w, calls);
    selection := selected.value;
    SerialLength(agent.env, c.st.(world := told), calls, selection.deferred, 0);
    outcomes := Serial(agent.env, c.st.(world := told), calls, selection.deferred, 0).1.value;
  }

  lemma MessagesGrow(messages: seq<ChatMessage>, delta: Option<string>, rules: seq<ChatMessage>, said: ChatMessage,
          replies: seq<ChatMessage>)
    requires rules == if delta.None? then [] else [TextMessage(System, delta.value)]
    requires !said.role.System?
    ensures var p := SystemPrefix(messages);
            InsertContext(messages + [said], delta) + replies
            == messages[..p] + rules + messages[p..] + [said] + replies
  {
    InsertBeforeTurn(messages, delta, [said]);
    RulesInserted(messages, delta, rules, SystemPrefix(messages));
  }

  lemma RulesInserted(messages: seq<ChatMessage>, delta: Option<string>, rules: seq<ChatMessage>, p: nat)
    requires p == SystemPrefix(messages) && rules == if delta.None? then [] else [TextMessage(System, delta.value)]
    ensures InsertContext(messages, delta) == messages[..p] + rules + messages[p..]
  {
    if delta.None? {
      SplitsAnywhere(messages, p);
    }
  }

  lemma SplitsAnywhere<T>(all: seq<T>, n: nat)
    requires n <= |all|
    ensures all[..n] + [] + all[n..] == all
  {
  }

  /** How a turn ends, by when the run is cancelled, what the model answers and whether it calls tools. */
  lemma TurnEndsExactlyWhen(agent: Agent, c: Conversation)
    requires agent.env.Terminating()
    ensures var (w, answer) := agent.gateway(c.st.world, Project(c.messages, agent.historyTokens).messages);
            var before, after := agent.env.cancelled(c.st.world), agent.env.cancelled(w);
            var t := TurnSerially(agent, c);
            && ((t.Stop? && t.reason.Cancelled?) <==>
                  before || (after && (answer.Ok? || answer.error.RequestCancelled?)))
            && ((t.Stop? && t.reason.Complete?) <==>
                  !before && !after && answer.Ok? && answer.value.toolCalls == [])
            && (!before && answer.Err? && !(after && answer.error.RequestCancelled?) ==>
                  t.Broken? && t.error == Gateway(answer.error))
            && (t.Stop? && t.reason.Complete? ==>
                  && |t.conversation.messages| == |c.messages| + 1
                  && t.conversation.messages[..|c.messages|] == c.messages
                  && IsSaid(t.conversation.messages[|c.messages|], answer.value))
  {
  }

  // What a whole run puts out.

  /** Everything the model said in these messages. */
  function Spoken(messages: seq<ChatMessage>): string {
    if messages == [] then ""
    else
      (if messages[0].role.Assistant? && messages[0].content.Some? then messages[0].content.value else "")
      + Spoken(messages[1..])
  }

  lemma {:induction false} SpokenConcat(a: seq<ChatMessage>, b: seq<ChatMessage>)
    ensures Spoken(a + b) == Spoken(a) + Spoken(b)
  {
    if a == [] {
      assert a + b == b;
    } else {
      assert (a + b)[1..] == a[1..] + b;
      SpokenConcat(a[1..], b);
      Regroup(if a[0].role.Assistant? && a[0].content.Some? then a[0].content.value else "", Spoken(a[1..]), Spoken(b));
    }
  }

  lemma {:induction false} OthersAreSilent(messages: seq<ChatMessage>)
    requires forall message | message in messages :: !message.role.Assistant?
    ensures Spoken(messages) == ""
  {
    if messages != [] {
      assert messages[0] in messages;
      OthersAreSilent(messages[1..]);
    }
  }

  lemma SaidIsSpoken(messages: seq<ChatMessage>, response: GatewayResponse)
    ensures Spoken(messages + [AssistantMessage(response)])
            == Spoken(messages) + (if response.content.Some? then response.content.value else "")
  {
    var said := [AssistantMessage(response)];
    SpokenConcat(messages, said);
    assert Spoken(said) == (if response.content.Some? then response.content.value else "") + Spoken(said[1..]);
  }

  lemma InsertionIsSilent(messages: seq<ChatMessage>, delta: Option<string>)
    ensures Spoken(InsertContext(messages, delta)) == Spoken(messages)
  {
    if delta.Some? {
      var p, rules := SystemPrefix(messages), [TextMessage(System, delta.value)];
      OthersAreSilent(rules);
      SilenceBetween(messages[..p], rules, messages[p..]);
      assert messages[..p] + messages[p..] == messages;
    }
  }

  lemma SilenceBetween(a: seq<ChatMessage>, silent: seq<ChatMessage>, b: seq<ChatMessage>)
    requires Spoken(silent) == ""
    ensures Spoken(a + silent + b) == Spoken(a + b)
  {
    SpokenConcat(a, silent);
    SpokenConcat(a + silent, b);
    SpokenConcat(a, b);
    assert Spoken(a) + "" == Spoken(a);
  }

  /** What was said from the start on is what was put out, and every step sent one request. */
  ghost predicate KeptCount(agent: Agent, said: string, c: Conversation) {
    && Spoken(c.messages) == said + c.output
    && |c.requests| == c.steps
    && (agent.maxSteps > 0 ==> c.steps <= agent.maxSteps)
  }

  lemma ReceivedIsCounted(agent: Agent, said: string, c: Conversation, w: World, response: GatewayResponse)
    requires KeptCount(agent, said, c) && MayStep(agent, c.steps)
    ensures KeptCount(agent, said, Sent(agent, c, w)) && KeptCount(agent, said, Received(Sent(agent, c, w), response))
  {
    SaidIsSpoken(c.messages, response);
    if response.content.Some? {
      Regroup(said, c.output, response.content.value);
    }
  }

  lemma AnsweredIsCounted(agent: Agent, said: string, c: Conversation, w: World, delta: Option<string>, st: State,
          calls: seq<ToolCall>, outcomes: seq<Outcome>)
    requires KeptCount(agent, said, c) && |calls| == |outcomes|
    ensures KeptCount(agent, said, Answered(Informed(c, w, delta), st, calls, outcomes))
  {
    InsertionIsSilent(c.messages, delta);
    OthersAreSilent(Replies(calls, outcomes));
    SpokenConcat(InsertContext(c.messages, delta), Replies(calls, outcomes));
  }

  ghost predicate TurnCounts(agent: Agent, said: string, t: Turned) {
    match t
    case Continue(c) => KeptCount(agent, said, c)
    case Stop(c, reason) => KeptCount(agent, said, c) && (reason.StepLimit? ==> c.steps == agent.maxSteps > 0)
    case Broken(sent, _) => agent.maxSteps > 0 ==> |sent| <= agent.maxSteps
    case Stuck(_) => true
  }

  lemma TurnIsCounted(agent: Agent, said: string, c: Conversation)
    requires agent.env.Terminating() && KeptCount(agent, said, c) && MayStep(agent, c.steps)
    ensures TurnCounts(agent, said, TurnSerially(agent, c))
  {
    var (w, answer) := agent.gateway(c.st.world, Request(agent, c));
    if answer.Err? {
      ReceivedIsCounted(agent, said, c, w, GatewayResponse(None, [], false));
    } else {
      var response := answer.value;
      ReceivedIsCounted(agent, said, c, w, response);
      AnswersAreCounted(agent, said, Received(Sent(agent, c, w), response), response.toolCalls);
    }
  }

  lemma AnswersAreCounted(agent: Agent, said: string, c: Conversation, calls: seq<ToolCall>)
    requires agent.env.Terminating() && KeptCount(agent, said, c)
    ensures TurnCounts(agent, said, AnswerSerially(agent, c, calls))
  {
    var (told, selection) := Select(agent.env, agent.provider, c.st.world, calls);
    if selection.Ok? {
      var informed := Informed(c, told, selection.value.delta);
      var (st, outcomes) := Serial(agent.env, informed.st, calls, selection.value.deferred, 0);
      SerialLength(agent.env, informed.st, calls, selection.value.deferred, 0);
      if outcomes.Ok? {
        AnsweredIsCounted(agent, said, c, told, selection.value.delta, st, calls, outcomes.value);
      }
    }
  }

  lemma {:induction false} RunIsCounted(agent: Agent, said: string, c: Conversation, turns: nat)
    requires agent.env.Terminating() && KeptCount(agent, said, c)
    ensures TurnCounts(agent, said, RunSerially(agent, c, turns))
    decreases turns
  {
    if MayStep(agent, c.steps) && turns > 0 {
      var fewer: nat := turns - 1;
      TurnIsCounted(agent, said, c);
      TurnByTurn(agent, SerialTurn(agent), c, turns, fewer);
      if TurnSerially(agent, c).Continue? {
        RunIsCounted(agent, said, TurnSerially(agent, c).conversation, fewer);
      }
    }
  }

  /**
   * A run puts out what the model said in it, whole and in order, sends one request for each step and no more than
   * its limit, and stops for the limit only when it is reached.
   */
  lemma RunSays(agent: Agent, history: seq<ChatMessage>, prompt: string, st: State, turns: nat)
    requires agent.env.Terminating()
    ensures TurnCounts(agent, Spoken(history), RunSerially(agent, Opening(history, prompt, st), turns))
  {
    var asked := [TextMessage(User, prompt)];
    OthersAreSilent(asked);
    SpokenConcat(history, asked);
    RunIsCounted(agent, Spoken(history), Opening(history, prompt, st), turns);
  }
}
