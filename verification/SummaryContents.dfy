// What the message that stands in for omitted ones is, and where each of its lines comes from.

module SummaryContents {
  import opened Basics
  import opened Conversations
  import opened Projections
  import opened ProjectionTheorems
  import opened Summaries
  import opened SummaryEnds
  import opened Texts

  // Who is quoted.

  /** How many of the messages say something in that role. */
  function Speakers(messages: seq<ChatMessage>, role: Role): nat {
    if messages == [] then 0 else (if Speaks(messages[0], role) then 1 else 0) + Speakers(messages[1..], role)
  }

  predicate IsSpeaker(messages: seq<ChatMessage>, role: Role, k: nat, origin: nat) {
    origin < |messages| && Speaks(messages[origin], role) && Speakers(messages[..origin], role) == k
  }

  /** The places of the first `limit` messages that say something in that role, in order. */
  predicate AreFirst(messages: seq<ChatMessage>, role: Role, limit: nat, origins: seq<nat>) {
    && |origins| == Min(limit, Speakers(messages, role))
    && forall k: nat | k < |origins| :: IsSpeaker(messages, role, k, origins[k])
  }

  function Caption(role: Role): string {
    if role.User? then "Historical user request" else "Assistant outcome"
  }

  function Quotes(messages: seq<ChatMessage>, role: Role, origins: seq<nat>): (lines: seq<string>)
    requires forall k | 0 <= k < |origins| :: origins[k] < |messages| && messages[origins[k]].content.Some?
    ensures |lines| == |origins|
  {
    seq(|origins|,
        k requires 0 <= k < |origins| && origins[k] < |messages| && messages[origins[k]].content.Some? =>
          Caption(role) + ": " + CompactLine(messages[origins[k]].content.value))
  }

  lemma {:induction false} SpeakersConcat(a: seq<ChatMessage>, b: seq<ChatMessage>, role: Role)
    ensures Speakers(a + b, role) == Speakers(a, role) + Speakers(b, role)
  {
    if a == [] {
      assert a + b == b;
    } else {
      assert (a + b)[1..] == a[1..] + b;
      SpeakersConcat(a[1..], b, role);
    }
  }

  lemma OneMoreSpeaker(messages: seq<ChatMessage>, role: Role, index: nat, next: nat)
    requires index < |messages| && next == index + 1
    ensures Speakers(messages[..next], role)
            == Speakers(messages[..index], role) + (if Speaks(messages[index], role) then 1 else 0)
  {
    SpeakersConcat(messages[..index], [messages[index]], role);
    assert messages[..next] == messages[..index] + [messages[index]];
  }

  /** The line quotes the message at `origin`, before which `k` others speak. */
  predicate IsQuoted(messages: seq<ChatMessage>, role: Role, k: nat, origin: nat, line: SummaryLine) {
    IsSpeaker(messages, role, k, origin) && line == RoleLine(role, CompactLine(messages[origin].content.value))
  }

  predicate AreQuoted(messages: seq<ChatMessage>, role: Role, before: nat, origins: seq<nat>,
          lines: seq<SummaryLine>) {
    && |lines| == |origins|
    && forall k: nat | k < |origins| :: IsQuoted(messages, role, before + k, origins[k], lines[k])
  }

  lemma OneMoreQuoted(messages: seq<ChatMessage>, role: Role, before: nat, next: nat, origin: nat, line: SummaryLine,
          origins: seq<nat>, lines: seq<SummaryLine>)
    requires next == before + 1 && IsQuoted(messages, role, before, origin, line)
    requires AreQuoted(messages, role, next, origins, lines)
    ensures AreQuoted(messages, role, before, [origin] + origins, [line] + lines)
  {
    forall k: nat | k < |[origin] + origins|
      ensures IsQuoted(messages, role, before + k, ([origin] + origins)[k], ([line] + lines)[k])
    {
      if k > 0 {
        var j: nat := k - 1;
        assert IsQuoted(messages, role, next + j, origins[j], lines[j]);
      }
    }
  }

  lemma {:induction false} SpeakersFrom(messages: seq<ChatMessage>, role: Role, index: nat, rest: seq<ChatMessage>,
          limit: nat, before: nat) returns (origins: seq<nat>)
    requires index <= |messages| && rest == messages[index..] && before == Speakers(messages[..index], role)
    ensures |origins| == Min(limit, Speakers(rest, role))
    ensures AreQuoted(messages, role, before, origins, RoleLines(rest, role, limit))
    decreases |rest|
  {
    origins := [];
    if rest != [] && limit > 0 {
      var next := index + 1;
      OneMoreSpeaker(messages, role, index, next);
      if Speaks(messages[index], role) {
        var left, more := limit - 1, before + 1;
        origins := SpeakersFrom(messages, role, next, rest[1..], left, more);
        var line := RoleLine(role, CompactLine(messages[index].content.value));
        OneMoreQuoted(messages, role, before, more, index, line, origins, RoleLines(rest[1..], role, left));
        origins := [index] + origins;
      } else {
        origins := SpeakersFrom(messages, role, next, rest[1..], limit, before);
      }
    }
  }

  lemma FirstSpeakers(messages: seq<ChatMessage>, role: Role, limit: nat) returns (origins: seq<nat>)
    ensures AreFirst(messages, role, limit, origins)
    ensures AreQuoted(messages, role, 0, origins, RoleLines(messages, role, limit))
  {
    assert messages[0..] == messages && messages[..0] == [];
    origins := SpeakersFrom(messages, role, 0, messages, limit, 0);
    forall k: nat | k < |origins| ensures IsSpeaker(messages, role, k, origins[k]) {
      assert IsQuoted(messages, role, 0 + k, origins[k], RoleLines(messages, role, limit)[k]);
    }
  }

  // Which tools are named.

  function CallsNamed(calls: seq<ToolCall>): (lines: seq<string>)
    ensures |lines| == |calls|
    ensures forall i: nat | i < |calls| :: lines[i] == "Tool requested: " + CompactLine(calls[i].name)
  {
    seq(|calls|, i requires 0 <= i < |calls| => "Tool requested: " + CompactLine(calls[i].name))
  }

  function ResultNamed(message: ChatMessage): seq<string> {
    if message.role.Tool? then
      ["Tool result recorded: " + CompactLine(if message.toolName.Some? then message.toolName.value else "unknown")]
    else []
  }

  function Deeds(message: ChatMessage): seq<string> {
    CallsNamed(message.toolCalls) + ResultNamed(message)
  }

  /** Every tool call and every tool result, in order. */
  function AllDeeds(messages: seq<ChatMessage>): seq<string> {
    if messages == [] then [] else Deeds(messages[0]) + AllDeeds(messages[1..])
  }

  function Head(lines: seq<string>, room: nat): seq<string> {
    lines[..Min(room, |lines|)]
  }

  lemma HeadConcat(a: seq<string>, b: seq<string>, room: nat, left: nat)
    requires left == room - |Head(a, room)|
    ensures Head(a + b, room) == Head(a, room) + Head(b, left)
  {
  }

  lemma {:induction false} RequestsNamed(calls: seq<ToolCall>, room: nat)
    ensures |RequestLines(calls, room)| == Min(|calls|, room)
    ensures forall k: nat | k < |RequestLines(calls, room)| ::
              RequestLines(calls, room)[k] == ToolRequested(CompactLine(calls[k].name))
    decreases |calls|
  {
    if calls != [] && room > 0 {
      RequestsNamed(calls[1..], room - 1);
    }
  }

  lemma RequestsRendered(calls: seq<ToolCall>, room: nat, lines: seq<SummaryLine>)
    requires lines == RequestLines(calls, room)
    ensures Rendered(lines) == Head(CallsNamed(calls), room)
  {
    RequestsNamed(calls, room);
  }

  lemma MessageNamed(message: ChatMessage, room: nat)
    ensures Rendered(MessageLines(message, room)) == Head(Deeds(message), room)
  {
    var requests := RequestLines(message.toolCalls, room);
    var left := room - |requests|;
    RequestsRendered(message.toolCalls, room, requests);
    HeadConcat(CallsNamed(message.toolCalls), ResultNamed(message), room, left);
    var result := if message.role.Tool? && left > 0
        then [ToolRecorded(CompactLine(NameOrUnknown(message.toolName)))] else [];
    RenderedConcat(requests, result);
    assert Rendered(result) == Head(ResultNamed(message), left);
  }

  lemma {:induction false} ToolsNamed(messages: seq<ChatMessage>, index: nat, room: nat, rest: seq<ChatMessage>)
    requires index <= |messages| && rest == messages[index..]
    ensures Rendered(ToolLines(messages, index, room)) == Head(AllDeeds(rest), room)
    decreases |rest|
  {
    if rest != [] {
      var own, next, later := MessageLines(messages[index], room), index + 1, rest[1..];
      var left := room - |own|;
      assert later == messages[next..];
      ToolsNamed(messages, next, left, later);
      NamedBefore(messages[index], room, own, left, ToolLines(messages, next, left), AllDeeds(later));
      OneMoreNamed(messages, index, room, next, left, own);
    }
  }

  lemma OneMoreNamed(messages: seq<ChatMessage>, index: nat, room: nat, next: nat, left: nat, own: seq<SummaryLine>)
    requires index < |messages| && next == index + 1 && own == MessageLines(messages[index], room)
    requires left == room - |own|
    ensures ToolLines(messages, index, room) == own + ToolLines(messages, next, left)
  {
  }

  lemma NamedBefore(message: ChatMessage, room: nat, own: seq<SummaryLine>, left: nat, later: seq<SummaryLine>,
          deeds: seq<string>)
    requires own == MessageLines(message, room) && left == room - |own| && Rendered(later) == Head(deeds, left)
    ensures Rendered(own + later) == Head(Deeds(message) + deeds, room)
  {
    MessageNamed(message, room);
    HeadConcat(Deeds(message), deeds, room, left);
    RenderedConcat(own, later);
  }

  lemma RenderedConcat(a: seq<SummaryLine>, b: seq<SummaryLine>)
    ensures Rendered(a + b) == Rendered(a) + Rendered(b)
  {
  }

  // The lines that are up for the summary, and those that get into it.

  /** What is said after the opening: requests, outcomes, tools, and the closing tag. */
  function Candidates(messages: seq<ChatMessage>, requests: seq<nat>, outcomes: seq<nat>): seq<string>
    requires AreFirst(messages, User, 4, requests) && AreFirst(messages, Assistant, 3, outcomes)
  {
    FirstSpeak(messages, User, 4, requests);
    FirstSpeak(messages, Assistant, 3, outcomes);
    Quotes(messages, User, requests) + Quotes(messages, Assistant, outcomes) + Head(AllDeeds(messages), 4)
    + ["</compacted_context>"]
  }

  lemma FirstSpeak(messages: seq<ChatMessage>, role: Role, limit: nat, origins: seq<nat>)
    requires AreFirst(messages, role, limit, origins)
    ensures forall k | 0 <= k < |origins| :: origins[k] < |messages| && messages[origins[k]].content.Some?
  {
    forall k | 0 <= k < |origins| ensures origins[k] < |messages| && messages[origins[k]].content.Some? {
      assert IsSpeaker(messages, role, k, origins[k]);
    }
  }

  function AllCompact(lines: seq<string>): seq<string> {
    if lines == [] then [] else [CompactLine(lines[0])] + AllCompact(lines[1..])
  }

  /** Every line on a new line. */
  function Below(lines: seq<string>): string {
    if lines == [] then "" else "\n" + lines[0] + Below(lines[1..])
  }

  /**
   * The opening lines and, of the candidates, those that fit, each compacted and in order; if any does not, a notice
   * says how many, room permitting. None is left out unless all of them together are too long.
   */
  ghost predicate Summarises(text: string, messages: seq<ChatMessage>, requests: seq<nat>, outcomes: seq<nat>,
          shown: seq<string>, dropped: seq<string>) {
    && AreFirst(messages, User, 4, requests) && AreFirst(messages, Assistant, 3, outcomes)
    && (var start, lines := Opened(|messages|).content, AllCompact(Candidates(messages, requests, outcomes));
        var body, notice := start + Below(shown), Notice(|dropped|);
        && Interleaves(shown, dropped, lines)
        && (dropped != [] ==> ByteLen(start + Below(lines)) > SUMMARY_MAX_BYTES)
        && text == if dropped != [] && ByteLen(body) + ByteLen(notice) <= SUMMARY_MAX_BYTES
            then body + notice else body)
  }

  lemma BelowConcat(content: string, line: string, rest: seq<string>)
    ensures Below([line] + rest) == "\n" + line + Below(rest)
    ensures content + Below([line] + rest) == (content + "\n" + line) + Below(rest)
  {
    assert ([line] + rest)[1..] == rest;
  }

  lemma {:induction false} BelowSize(lines: seq<string>)
    ensures lines != [] ==> ByteLen(Below(lines)) >= 1 + ByteLen(lines[0])
  {
    if lines != [] {
      AsciiByteLen("\n");
      ByteLenConcat("\n", lines[0]);
      ByteLenConcat("\n" + lines[0], Below(lines[1..]));
    }
  }

  lemma {:induction false} BelowShrinks(content: string, lines: seq<string>)
    requires lines != []
    ensures ByteLen(content + Below(lines[1..])) <= ByteLen(content + Below(lines))
  {
    ByteLenConcat(content, Below(lines[1..]));
    ByteLenConcat(content, Below(lines));
    ByteLenConcat("\n" + lines[0], Below(lines[1..]));
  }

  lemma {:induction false} LinesShown(draft: Draft, texts: seq<string>, index: nat, rest: seq<string>)
    returns (shown: seq<string>, dropped: seq<string>)
    requires draft.content != [] && index <= |texts| && rest == texts[index..]
    requires draft.lineCount + |rest| <= SUMMARY_MAX_LINES
    ensures Interleaves(shown, dropped, AllCompact(rest))
    ensures AddLines(draft, texts, index)
            == Draft(draft.content + Below(shown), draft.lineCount + |shown|, draft.omittedLines + |dropped|)
    ensures dropped != [] ==> ByteLen(draft.content + Below(AllCompact(rest))) > SUMMARY_MAX_BYTES
    decreases |rest|
  {
    if rest == [] {
      shown, dropped := [], [];
      assert draft.content + "" == draft.content;
    } else {
      var line, next := CompactLine(texts[index]), index + 1;
      var later := AllCompact(rest[1..]);
      assert AllCompact(rest) == [line] + later;
      var added := AddLine(draft, texts[index]);
      shown, dropped := LinesShown(added, texts, next, rest[1..]);
      BelowConcat(draft.content, line, later);
      if Fits(draft.content, line) {
        BelowConcat(draft.content, line, shown);
        InterleavesPrepend([line], shown, dropped, later);
        shown := [line] + shown;
      } else {
        InterleavesPrepend([line], shown, dropped, later);
        dropped := [line] + dropped;
        BelowSize(AllCompact(rest));
        ByteLenConcat(draft.content, Below(AllCompact(rest)));
      }
    }
  }

  lemma QuotesRendered(messages: seq<ChatMessage>, role: Role, lines: seq<SummaryLine>, origins: seq<nat>)
    requires forall k | 0 <= k < |origins| :: origins[k] < |messages| && messages[origins[k]].content.Some?
    requires AreQuoted(messages, role, 0, origins, lines) && (role.User? || role.Assistant?)
    ensures Rendered(lines) == Quotes(messages, role, origins)
  {
    forall k: nat | k < |origins| ensures Rendered(lines)[k] == Quotes(messages, role, origins)[k] {
      assert IsQuoted(messages, role, 0 + k, origins[k], lines[k]);
    }
  }

  lemma ThenCloses(users: seq<SummaryLine>, assistants: seq<SummaryLine>, tools: seq<SummaryLine>)
    ensures Rendered(users + assistants + tools + [Closing])
            == Rendered(users) + Rendered(assistants) + Rendered(tools) + ["</compacted_context>"]
  {
    var spoken := users + assistants;
    RenderedConcat(users, assistants);
    RenderedConcat(spoken, tools);
    RenderedConcat(spoken + tools, [Closing]);
    assert Rendered([Closing]) == ["</compacted_context>"];
  }

  lemma AfterThree(first: seq<SummaryLine>, rest: seq<SummaryLine>, lines: seq<SummaryLine>)
    requires |first| == 3 && lines == first + rest
    ensures Rendered(lines)[3..] == Rendered(rest)
  {
  }

  lemma LinesRendered(messages: seq<ChatMessage>, users: seq<SummaryLine>, assistants: seq<SummaryLine>,
          tools: seq<SummaryLine>)
    requires users == RoleLines(messages, User, 4) && assistants == RoleLines(messages, Assistant, 3)
    requires tools == ToolLines(messages, 0, 4)
    ensures Rendered(SummaryLines(messages))[3..]
            == Rendered(users) + Rendered(assistants) + Rendered(tools) + ["</compacted_context>"]
  {
    var first, rest := [Opening, Count(|messages|), Disclaimer], users + assistants + tools + [Closing];
    RegroupFive(first, users, assistants, tools, [Closing]);
    AfterThree(first, rest, first + rest);
    ThenCloses(users, assistants, tools);
  }

  lemma RegroupFive<T>(a: seq<T>, b: seq<T>, c: seq<T>, d: seq<T>, e: seq<T>)
    ensures a + b + c + d + e == a + (b + c + d + e)
  {
    Regroup(a, b, c);
    Regroup(a, b + c, d);
    Regroup(a, b + c + d, e);
  }

  lemma CandidatesRendered(messages: seq<ChatMessage>) returns (requests: seq<nat>, outcomes: seq<nat>)
    ensures AreFirst(messages, User, 4, requests) && AreFirst(messages, Assistant, 3, outcomes)
    ensures Rendered(SummaryLines(messages))[3..] == Candidates(messages, requests, outcomes)
  {
    requests := FirstSpeakers(messages, User, 4);
    outcomes := FirstSpeakers(messages, Assistant, 3);
    FirstSpeak(messages, User, 4, requests);
    FirstSpeak(messages, Assistant, 3, outcomes);
    var users, assistants := RoleLines(messages, User, 4), RoleLines(messages, Assistant, 3);
    QuotesRendered(messages, User, users, requests);
    QuotesRendered(messages, Assistant, assistants, outcomes);
    assert messages[0..] == messages;
    ToolsNamed(messages, 0, 4, messages);
    LinesRendered(messages, users, assistants, ToolLines(messages, 0, 4));
  }

  /** The draft of a summary once the opening is written. */
  lemma DraftAfterOpening(messages: seq<ChatMessage>, texts: seq<string>)
    requires |messages| <= MAX_U64 && texts == Rendered(SummaryLines(messages))
    ensures |texts| > 3
    ensures AddLines(BLANK, texts, 0) == AddLines(Opened(|messages|), texts, 3)
  {
    LinesOpen(messages, texts);
    OpeningAdds(|messages|);
    ThreeLines(BLANK, texts);
  }

  lemma {:induction false} SummaryComesFrom(messages: seq<ChatMessage>)
    returns (requests: seq<nat>, outcomes: seq<nat>, shown: seq<string>, dropped: seq<string>)
    requires |messages| <= MAX_U64
    ensures Summarises(SummaryText(messages), messages, requests, outcomes, shown, dropped)
  {
    var texts := Rendered(SummaryLines(messages));
    DraftAfterOpening(messages, texts);
    requests, outcomes := CandidatesRendered(messages);
    shown, dropped := ShownAfterOpening(|messages|, texts, texts[3..]);
  }

  lemma ShownAfterOpening(count: nat, texts: seq<string>, rest: seq<string>)
    returns (shown: seq<string>, dropped: seq<string>)
    requires 3 <= |texts| <= 15 && rest == texts[3..]
    ensures Interleaves(shown, dropped, AllCompact(rest))
    ensures AddLines(Opened(count), texts, 3).content == Opened(count).content + Below(shown)
    ensures AddLines(Opened(count), texts, 3).omittedLines == |dropped|
    ensures dropped != [] ==> ByteLen(Opened(count).content + Below(AllCompact(rest))) > SUMMARY_MAX_BYTES
  {
    shown, dropped := LinesShown(Opened(count), texts, 3, rest);
  }

  // The message itself.

  function Systems(messages: seq<ChatMessage>): seq<ChatMessage> {
    if messages == [] then [] else (if messages[0].role.System? then [messages[0]] else []) + Systems(messages[1..])
  }

  lemma {:induction false} SystemsConcat(a: seq<ChatMessage>, b: seq<ChatMessage>)
    ensures Systems(a + b) == Systems(a) + Systems(b)
  {
    if a == [] {
      assert a + b == b;
    } else {
      assert (a + b)[1..] == a[1..] + b;
      SystemsConcat(a[1..], b);
      Regroup(if a[0].role.System? then [a[0]] else [], Systems(a[1..]), Systems(b));
    }
  }

  /** A user's message with a text and nothing else; not cached. */
  predicate IsStandIn(message: ChatMessage) {
    && message.role == User && message.content.Some? && message.cachePolicy == NoCache
    && message.toolCallId == None && message.toolName == None && message.toolCalls == []
    && !message.permissionFeedback
  }

  /**
   * A request that leaves anything out holds one message that was not in the history: a user's, never a system's,
   * whose text is drawn from the omitted messages, each quoted under its role.
   */
  lemma StandInSpeaksForTheOmitted(messages: seq<ChatMessage>, maxTokens: U64)
    returns (kept: seq<ChatMessage>, omitted: seq<ChatMessage>, summary: ChatMessage, requests: seq<nat>,
             outcomes: seq<nat>, shown: seq<string>, dropped: seq<string>)
    requires |messages| <= MAX_U64 && Project(messages, maxTokens).omittedMessages > 0
    ensures var projected := Project(messages, maxTokens).messages;
            var prefix := messages[..SystemPrefix(messages)];
            && projected == prefix + [summary] + kept
            && Interleaves(kept, omitted, messages[|prefix|..]) && omitted != []
            && Systems(projected) == Systems(prefix) + Systems(kept)
    ensures IsStandIn(summary)
            && Summarises(summary.content.value, omitted, requests, outcomes, shown, dropped)
  {
    OnlyOverflowIsCompacted(messages, maxTokens);
    kept, omitted := CompactedRequest(messages, maxTokens);
    summary := Compacted(omitted);
    var prefix := messages[..SystemPrefix(messages)];
    SystemsOfThree(prefix, summary, kept);
    InterleavesSize(kept, omitted, messages[|prefix|..]);
    requests, outcomes, shown, dropped := SummaryComesFrom(omitted);
  }

  lemma SystemsOfThree(prefix: seq<ChatMessage>, summary: ChatMessage, kept: seq<ChatMessage>)
    requires !summary.role.System?
    ensures Systems(prefix + [summary] + kept) == Systems(prefix) + Systems(kept)
  {
    var rest := [summary] + kept;
    assert rest[1..] == kept;
    SystemsConcat(prefix, rest);
    assert prefix + [summary] + kept == prefix + rest;
  }

  lemma {:induction false} InterleavesSize<T>(kept: seq<T>, omitted: seq<T>, whole: seq<T>)
    requires Interleaves(kept, omitted, whole)
    ensures |kept| + |omitted| == |whole|
    decreases |whole|
  {
    if whole != [] {
      if kept != [] && kept[0] == whole[0] && Interleaves(kept[1..], omitted, whole[1..]) {
        InterleavesSize(kept[1..], omitted, whole[1..]);
      } else {
        InterleavesSize(kept, omitted[1..], whole[1..]);
      }
    }
  }
}
