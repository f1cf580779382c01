// Messages, and what makes a conversation well formed: every tool call of an assistant message is
// answered, in order, by identifier and name, right after it, and no tool result stands anywhere else.

module Conversations {
  import opened Basics

  datatype Role = System | User | Assistant | Tool

  datatype Integrity = Valid | MalformedJson

  datatype Provenance = FxLocal | Provider

  datatype ToolCall = ToolCall(
    id: string,
    name: string,
    argumentsJson: string,
    integrity: Integrity,
    provisionalId: Option<string>,
    providerResult: Option<string>,
    provenance: Provenance
  )

  datatype CachePolicy = Default | NoCache

  datatype ChatMessage = ChatMessage(
    role: Role,
    content: Option<string>,
    toolCallId: Option<string>,
    toolName: Option<string>,
    toolCalls: seq<ToolCall>,
    permissionFeedback: bool,
    cachePolicy: CachePolicy
  )

  /** `ChatMessage::text`. */
  function TextMessage(role: Role, content: string): ChatMessage {
    ChatMessage(role, Some(content), None, None, [], false, Default)
  }

  function CallsOf(message: ChatMessage): seq<ToolCall> {
    if message.role.Assistant? then message.toolCalls else []
  }

  predicate Answers(reply: ChatMessage, call: ToolCall) {
    reply.role.Tool? && reply.toolCallId == Some(call.id) && reply.toolName == Some(call.name)
  }

  predicate AnswerAll(replies: seq<ChatMessage>, calls: seq<ToolCall>) {
    |replies| == |calls| && forall i: nat | i < |calls| :: Answers(replies[i], calls[i])
  }

  /** The first message is no tool result, and its calls are answered right behind it. */
  predicate OpensWell(messages: seq<ChatMessage>)
    requires messages != []
  {
    var calls := CallsOf(messages[0]);
    !messages[0].role.Tool? && |calls| < |messages| && AnswerAll(messages[1..1 + |calls|], calls)
  }

  /** The first message with its answers. */
  function Turn(messages: seq<ChatMessage>): nat
    requires messages != []
  {
    1 + |CallsOf(messages[0])|
  }

  predicate WellFormed(messages: seq<ChatMessage>) {
    messages != [] ==> OpensWell(messages) && WellFormed(messages[Turn(messages)..])
  }

  // The same, message by message.

  ghost predicate AnsweredAt(messages: seq<ChatMessage>, i: nat)
    requires i < |messages|
  {
    var calls := CallsOf(messages[i]);
    i + |calls| < |messages| && AnswerAll(messages[i + 1..i + 1 + |calls|], calls)
  }

  ghost predicate AskedAt(messages: seq<ChatMessage>, i: nat, t: nat)
    requires i < |messages|
  {
    i < t <= i + |CallsOf(messages[i])|
  }

  ghost predicate AskedBefore(messages: seq<ChatMessage>, t: nat)
    requires t < |messages|
  {
    exists i: nat | i < t :: AskedAt(messages, i, t)
  }

  ghost predicate EveryCallAnswered(messages: seq<ChatMessage>) {
    && (forall i: nat | i < |messages| :: AnsweredAt(messages, i))
    && (forall t: nat | t < |messages| && messages[t].role.Tool? :: AskedBefore(messages, t))
  }

  lemma {:induction false} WellFormedAnswersEveryCall(messages: seq<ChatMessage>)
    ensures WellFormed(messages) <==> EveryCallAnswered(messages)
    decreases |messages|
  {
    if messages != [] {
      if EveryCallAnswered(messages) {
        assert AnsweredAt(messages, 0);
        assert messages[0].role.Tool? ==> AskedBefore(messages, 0);
        assert !AskedBefore(messages, 0);
        assert OpensWell(messages);
      }
      if OpensWell(messages) {
        WellFormedAnswersEveryCall(messages[Turn(messages)..]);
        if EveryCallAnswered(messages) {
          TailOfAnswered(messages);
        }
        if EveryCallAnswered(messages[Turn(messages)..]) {
          AnsweredFromTail(messages);
        }
      }
    }
  }

  lemma OpeningAnswers(messages: seq<ChatMessage>, i: nat)
    requires messages != [] && OpensWell(messages) && 0 < i < Turn(messages)
    ensures messages[i].role.Tool? && CallsOf(messages[i]) == []
  {
    assert messages[1..Turn(messages)][i - 1] == messages[i];
    assert Answers(messages[i], CallsOf(messages[0])[i - 1]);
  }

  lemma TailAnsweredAt(messages: seq<ChatMessage>, skip: nat, j: nat)
    requires skip + j < |messages|
    ensures AnsweredAt(messages[skip..], j) <==> AnsweredAt(messages, skip + j)
  {
    var n := |CallsOf(messages[skip + j])|;
    if skip + j + n < |messages| {
      assert messages[skip..][j + 1..j + 1 + n] == messages[skip + j + 1..skip + j + 1 + n];
    }
  }

  lemma TailOfAnswered(messages: seq<ChatMessage>)
    requires messages != [] && OpensWell(messages) && EveryCallAnswered(messages)
    ensures EveryCallAnswered(messages[Turn(messages)..])
  {
    var skip := Turn(messages);
    var rest := messages[skip..];
    forall j: nat | j < |rest| ensures AnsweredAt(rest, j) {
      TailAnsweredAt(messages, skip, j);
    }
    forall u: nat | u < |rest| && rest[u].role.Tool? ensures AskedBefore(rest, u) {
      var t := skip + u;
      assert AskedBefore(messages, t);
      var i: nat :| i < t && AskedAt(messages, i, t);
      if 0 < i < skip {
        OpeningAnswers(messages, i);
      }
      var j := i - skip;
      assert AskedAt(rest, j, u);
    }
  }

  lemma AnsweredFromTail(messages: seq<ChatMessage>)
    requires messages != [] && OpensWell(messages) && EveryCallAnswered(messages[Turn(messages)..])
    ensures EveryCallAnswered(messages)
  {
    forall i: nat | i < |messages| ensures AnsweredAt(messages, i) {
      AnsweredAtFromTail(messages, i);
    }
    forall t: nat | t < |messages| && messages[t].role.Tool? ensures AskedBefore(messages, t) {
      AskedBeforeFromTail(messages, t);
    }
  }

  lemma AnsweredAtFromTail(messages: seq<ChatMessage>, i: nat)
    requires i < |messages| && OpensWell(messages) && EveryCallAnswered(messages[Turn(messages)..])
    ensures AnsweredAt(messages, i)
  {
    if i >= Turn(messages) {
      TailAnsweredAt(messages, Turn(messages), i - Turn(messages));
    } else if i > 0 {
      OpeningAnswers(messages, i);
      assert messages[i + 1..i + 1] == [];
    }
  }

  lemma AskedBeforeFromTail(messages: seq<ChatMessage>, t: nat)
    requires t < |messages| && OpensWell(messages) && EveryCallAnswered(messages[Turn(messages)..])
    requires messages[t].role.Tool?
    ensures AskedBefore(messages, t)
  {
    var skip := Turn(messages);
    if t < skip {
      assert AskedAt(messages, 0, t);
    } else {
      var rest, u := messages[skip..], t - skip;
      assert AskedBefore(rest, u);
      var j: nat :| j < u && AskedAt(rest, j, u);
      assert AskedAt(messages, skip + j, t);
    }
  }

  // Joining and cutting.

  lemma OpeningOfConcat(a: seq<ChatMessage>, b: seq<ChatMessage>)
    requires a != []
    ensures Turn(a + b) == Turn(a)
    ensures Turn(a) <= |a| ==> OpensWell(a + b) == OpensWell(a) && (a + b)[Turn(a)..] == a[Turn(a)..] + b
  {
    if Turn(a) <= |a| {
      assert (a + b)[1..Turn(a)] == a[1..Turn(a)];
      assert (a + b)[Turn(a)..] == a[Turn(a)..] + b;
    }
  }

  lemma {:induction false} WellFormedConcat(a: seq<ChatMessage>, b: seq<ChatMessage>)
    requires WellFormed(a) && WellFormed(b)
    ensures WellFormed(a + b)
    decreases |a|
  {
    if a == [] {
      assert a + b == b;
    } else {
      OpeningOfConcat(a, b);
      WellFormedConcat(a[Turn(a)..], b);
    }
  }

  /** A conversation may be cut before any message that is not a tool result. */
  lemma {:induction false} WellFormedCut(a: seq<ChatMessage>, b: seq<ChatMessage>)
    requires WellFormed(a + b)
    requires b == [] || !b[0].role.Tool?
    ensures WellFormed(a) && WellFormed(b)
    decreases |a|
  {
    if a == [] {
      assert a + b == b;
    } else {
      OpeningOfConcat(a, b);
      if Turn(a) > |a| {
        OpeningAnswers(a + b, |a|);
        assert false;
      }
      WellFormedCut(a[Turn(a)..], b);
    }
  }

  lemma {:induction false} OneTurn(asker: ChatMessage, replies: seq<ChatMessage>)
    requires !asker.role.Tool? && AnswerAll(replies, CallsOf(asker))
    ensures WellFormed([asker] + replies)
  {
    var turn := [asker] + replies;
    assert turn[1..1 + |CallsOf(asker)|] == replies;
    assert turn[Turn(turn)..] == [];
  }

  /** The number of leading system messages. */
  function SystemPrefix(messages: seq<ChatMessage>): (n: nat)
    ensures n <= |messages|
    ensures forall i: nat | i < n :: messages[i].role.System?
    ensures n < |messages| ==> !messages[n].role.System?
  {
    if messages == [] || !messages[0].role.System? then 0 else 1 + SystemPrefix(messages[1..])
  }

  lemma {:induction false} PlainMessagesAreWellFormed(messages: seq<ChatMessage>)
    requires forall i: nat | i < |messages| :: !messages[i].role.Tool? && CallsOf(messages[i]) == []
    ensures WellFormed(messages)
  {
    if messages != [] {
      PlainMessagesAreWellFormed(messages[1..]);
    }
  }

  lemma {:induction false} SystemPrefixSplits(messages: seq<ChatMessage>)
    requires WellFormed(messages)
    ensures WellFormed(messages[..SystemPrefix(messages)]) && WellFormed(messages[SystemPrefix(messages)..])
    ensures SystemPrefix(messages) < |messages| ==> !messages[SystemPrefix(messages)].role.Tool?
  {
    SystemPrefixSplitsAt(messages, SystemPrefix(messages));
  }

  /** Leading messages that make no calls come off one by one. */
  lemma {:induction false} SystemPrefixSplitsAt(messages: seq<ChatMessage>, n: nat)
    requires WellFormed(messages) && n <= |messages|
    requires forall i: nat | i < n :: messages[i].role.System?
    ensures WellFormed(messages[..n]) && WellFormed(messages[n..])
    ensures n < |messages| ==> !messages[n].role.Tool?
  {
    PlainMessagesAreWellFormed(messages[..n]);
    if n > 0 {
      SystemPrefixSplitsAt(messages[1..], n - 1);
      assert messages[1..][n - 1..] == messages[n..];
    } else {
      assert messages[n..] == messages;
    }
  }
}
