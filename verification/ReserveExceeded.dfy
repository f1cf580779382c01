// The 316 tokens set aside for a summary are not enough for one made of short words: a conversation
// whose request could fit its budget, and does not.

module ReserveExceeded {
  import opened Basics
  import opened Conversations
  import opened Projections
  import opened ProjectionTheorems
  import opened Summaries
  import opened SummaryEnds
  import opened Texts
  import opened TightBudgets

  function Repeated(word: string, count: nat): (words: seq<string>)
    ensures |words| == count && forall i: nat | i < count :: words[i] == word
  {
    seq(count, _ => word)
  }

  /** "a a a ... a" */
  function Chatter(count: nat): string {
    Join(Repeated("a", count))
  }

  lemma {:induction false} ChatterLength(count: nat)
    requires count > 0
    ensures ByteLen(Chatter(count)) == 2 * count - 1
  {
    AsciiByteLen("a");
    if count > 1 {
      ChatterLength(count - 1);
      assert Repeated("a", count)[1..] == Repeated("a", count - 1);
      AsciiByteLen("a ");
      assert "a" + " " == "a ";
      ByteLenConcat("a ", Chatter(count - 1));
    }
  }

  lemma ChatterIsCompact(count: nat)
    requires 0 < count <= 80
    ensures Words(Chatter(count)) == Repeated("a", count)
    ensures ByteLen(Chatter(count)) == 2 * count - 1
    ensures Tidy(Chatter(count)) && Chatter(count) != []
    ensures CompactLine(Chatter(count)) == Chatter(count)
  {
    assert IsWord("a");
    ChatterLength(count);
    WordsOfJoin(Repeated("a", count));
    JoinIsTidy(Repeated("a", count));
  }

  /** A caption in front of chatter fits one summary line, and is not cut. */
  lemma {:induction false} CaptionedChatter(caption: string, count: nat)
    requires Tidy(caption) && caption != [] && 0 < count <= 80
    requires ByteLen(caption) + 2 * count <= SUMMARY_LINE_MAX_BYTES
    ensures var text := caption + " " + Chatter(count);
            CompactLine(text) == text && ByteLen(text) == ByteLen(caption) + 2 * count && |Words(text)| >= count
  {
    ChatterIsCompact(count);
    var chatter := Chatter(count);
    var text := caption + " " + chatter;
    TidyConcat(caption, chatter);
    TidyIsFixed(text);
    AsciiByteLen(" ");
    ByteLenConcat(caption, " ");
    ByteLenConcat(caption + " ", chatter);
    WordsSplit(caption, ' ', chatter);
    assert caption + [' '] + chatter == text;
  }

  // The conversation: `users` requests and one reply, all of them the same talk.

  function Old(users: nat, talk: string): seq<ChatMessage> {
    if users == 0 then [TextMessage(Assistant, talk)] else [TextMessage(User, talk)] + Old(users - 1, talk)
  }

  lemma {:induction false} OldRequests(users: nat, talk: string, limit: nat)
    requires users <= limit && talk != [] && CompactLine(talk) == talk
    ensures RoleLines(Old(users, talk), User, limit) == seq(users, _ => Request(talk))
  {
    if users == 0 {
      assert Old(users, talk)[1..] == [];
    } else {
      OldRequests(users - 1, talk, limit - 1);
      assert Old(users, talk)[1..] == Old(users - 1, talk);
      assert Speaks(Old(users, talk)[0], User);
    }
  }

  lemma {:induction false} OldOutcomes(users: nat, talk: string, limit: nat)
    requires limit > 0 && talk != [] && CompactLine(talk) == talk
    ensures RoleLines(Old(users, talk), Assistant, limit) == [Outcome(talk)]
  {
    if users == 0 {
      assert Old(users, talk)[1..] == [];
      assert Speaks(Old(users, talk)[0], Assistant);
    } else {
      OldOutcomes(users - 1, talk, limit);
      assert Old(users, talk)[1..] == Old(users - 1, talk);
    }
  }

  /** The lines after the first three: what the four users and the assistant said. */
  lemma {:induction false} OldLines(talk: string)
    requires talk != [] && CompactLine(talk) == talk
    ensures var lines := SummaryLines(Old(4, talk));
            && |lines| >= 8
            && (forall i: nat | 3 <= i < 7 :: lines[i] == Request(talk))
            && lines[7] == Outcome(talk)
  {
    OldRequests(4, talk, 4);
    OldOutcomes(4, talk, 3);
  }

  // Its summary.

  /** A line that fits adds its own words. */
  lemma LineAddsWords(draft: Draft, text: string)
    requires draft.content != [] && draft.lineCount < SUMMARY_MAX_LINES
    requires ByteLen(draft.content) + 1 + ByteLen(CompactLine(text)) <= SUMMARY_MAX_BYTES
    ensures var next := AddLine(draft, text);
            && next.content != []
            && next.lineCount == draft.lineCount + 1
            && ByteLen(next.content) == ByteLen(draft.content) + 1 + ByteLen(CompactLine(text))
            && |Words(next.content)| == |Words(draft.content)| + |Words(CompactLine(text))|
  {
    LaterLine(draft, text);
    WordsSplit(draft.content, '\n', CompactLine(text));
    assert draft.content + ['\n'] + CompactLine(text) == draft.content + "\n" + CompactLine(text);
  }

  predicate Presentable(text: string) {
    CompactLine(text) == text && ByteLen(text) <= 160 && |Words(text)| >= 68
  }

  lemma PresentableAdds(draft: Draft, text: string)
    requires Presentable(text) && draft.content != [] && draft.lineCount < SUMMARY_MAX_LINES
    requires ByteLen(draft.content) + 161 <= SUMMARY_MAX_BYTES
    ensures var next := AddLine(draft, text);
            && next.content != []
            && next.lineCount == draft.lineCount + 1
            && ByteLen(next.content) <= ByteLen(draft.content) + 161
            && |Words(next.content)| >= |Words(draft.content)| + 68
  {
    LineAddsWords(draft, text);
  }

  lemma {:induction false} LinesAddWords(draft: Draft, texts: seq<string>, index: nat, end: nat) returns (next: Draft)
    requires index <= end <= |texts| && forall i: nat | index <= i < end :: Presentable(texts[i])
    requires draft.content != [] && draft.lineCount + (end - index) <= SUMMARY_MAX_LINES
    requires ByteLen(draft.content) + 161 * (end - index) <= SUMMARY_MAX_BYTES
    ensures AddLines(draft, texts, index) == AddLines(next, texts, end)
    ensures next.content != [] && next.lineCount == draft.lineCount + (end - index)
    ensures ByteLen(next.content) <= ByteLen(draft.content) + 161 * (end - index)
    ensures |Words(next.content)| >= |Words(draft.content)| + 68 * (end - index)
    decreases end - index
  {
    if index == end {
      next := draft;
    } else {
      PresentableAdds(draft, texts[index]);
      next := LinesAddWords(AddLine(draft, texts[index]), texts, index + 1, end);
    }
  }

  lemma EightLines(header: Draft, texts: seq<string>) returns (eighth: Draft)
    requires |texts| >= 8 && forall i: nat | 3 <= i < 7 :: Presentable(texts[i])
    requires CompactLine(texts[7]) == texts[7] && ByteLen(texts[7]) <= 154 && |Words(texts[7])| >= 68
    requires header.content != [] && header.lineCount == 3 && ByteLen(header.content) <= 401
    ensures AddLines(header, texts, 3) == AddLines(eighth, texts, 8)
    ensures ByteLen(eighth.content) <= SUMMARY_MAX_BYTES && |Words(eighth.content)| >= 340
  {
    var seventh := LinesAddWords(header, texts, 3, 7);
    LineAddsWords(seventh, texts[7]);
    eighth := AddLine(seventh, texts[7]);
  }

  /** Five lines of 68 one-letter words each fit behind the header, within 1200 bytes. */
  lemma SummaryIsWordy(messages: seq<ChatMessage>, texts: seq<string>)
    requires |messages| <= MAX_U64 && texts == Rendered(SummaryLines(messages)) && |texts| >= 8
    requires forall i: nat | 3 <= i < 7 :: Presentable(texts[i])
    requires CompactLine(texts[7]) == texts[7] && ByteLen(texts[7]) <= 154 && |Words(texts[7])| >= 68
    ensures TextTokens(SummaryText(messages)) >= 340
  {
    var text, header := SummaryText(messages), Opened(|messages|);
    LinesOpen(messages, texts);
    OpeningAdds(|messages|);
    CountIsPlain(|messages|);
    ThreeLines(BLANK, texts);
    var eighth := EightLines(header, texts);
    AddLinesFit(eighth, texts, 8);
    SummaryExtends(messages, texts);
    WordsGrow(eighth.content, text);
    WordsAreCounted(text, 340);
  }

  lemma {:induction false} OldIsWordy(talk: string)
    requires talk == Chatter(68)
    ensures TextTokens(SummaryText(Old(4, talk))) >= 340
  {
    ChatterIsCompact(68);
    OldLines(talk);
    var texts := Rendered(SummaryLines(Old(4, talk)));
    forall i: nat | 3 <= i < 7 ensures Presentable(texts[i]) {
      TalkIsPresentable(talk);
    }
    TalkIsPresentable(talk);
    SummaryIsWordy(Old(4, talk), texts);
  }

  lemma CaptionedIsPresentable(caption: string, talk: string)
    requires talk == Chatter(68) && Plain(caption) && |caption| <= 23
    ensures var text := Captioned(caption, talk);
            CompactLine(text) == text && ByteLen(text) == |caption| + 137 && |Words(text)| >= 68
  {
    var colon := caption + ":";
    assert Tidy(colon) by {
      forall i: nat | i < |colon| && IsWhitespace(colon[i])
        ensures colon[i] == ' ' && 0 < i < |colon| - 1 && !IsWhitespace(colon[i - 1])
      {
        assert colon[i] == caption[i] && colon[i - 1] == caption[i - 1];
      }
    }
    AsciiByteLen(colon);
    CaptionedChatter(colon, 68);
    assert caption + ": " == colon + " ";
  }

  lemma TalkIsPresentable(talk: string)
    requires talk == Chatter(68)
    ensures Presentable(Request(talk).Text())
    ensures var text := Outcome(talk).Text(); CompactLine(text) == text && ByteLen(text) <= 154 && |Words(text)| >= 68
  {
    CaptionsArePlain();
    CaptionedIsPresentable("Historical user request", talk);
    CaptionedIsPresentable("Assistant outcome", talk);
  }

  // Its projection.

  function Example(): seq<ChatMessage> {
    Old(4, Chatter(68)) + [TextMessage(User, "x")]
  }

  lemma {:induction false} OldShape(users: nat, talk: string)
    ensures |Old(users, talk)| == users + 1
    ensures forall i: nat | i <= users ::
              Old(users, talk)[i] == TextMessage(Old(users, talk)[i].role, talk) && !Old(users, talk)[i].role.System?
  {
    if users > 0 {
      OldShape(users - 1, talk);
    }
  }

  lemma TalkTokens(role: Role, talk: string)
    ensures MessageTokens(TextMessage(role, talk)) == SaturatingAdd(8, TextTokens(talk))
  {
    var message := TextMessage(role, talk);
    assert OptionalCost(message.content) + OptionalCost(message.toolCallId) + OptionalCost(message.toolName)
           + CallCosts(message.toolCalls) == [TextTokens(talk)];
    assert SaturatingSum(8, [TextTokens(talk)]) == SaturatingAdd(8, TextTokens(talk));
  }

  lemma {:induction false} ExampleShape(messages: seq<ChatMessage>, talk: string)
    requires messages == Old(4, talk) + [TextMessage(User, "x")]
    ensures |messages| == 6 && SystemPrefix(messages) == 0 && NewestStart(messages) == 5
  {
    OldShape(4, talk);
    assert messages[0] == Old(4, talk)[0];
    NewestStartIsLastRequest(messages);
    assert IsUser(messages[5]);
  }

  lemma QuestionTokens()
    ensures Estimate([TextMessage(User, "x")]) <= 9
  {
    TextTokensBound("x");
    AsciiByteLen("x");
    TalkTokens(User, "x");
    var costs := MessageCosts([TextMessage(User, "x")]);
    assert costs == [MessageTokens(TextMessage(User, "x"))] && costs[1..] == [];
  }

  /** Every group of the old talk costs more than nine tokens. */
  lemma {:induction false} OldGroupsAreDear(messages: seq<ChatMessage>, talk: string, range: Range)
    requires messages == Old(4, talk) + [TextMessage(User, "x")] && TextTokens(talk) >= 68
    requires range.start < range.end <= |messages| && range.start < 5
    ensures Estimate(Slice(messages, range)) >= 76
  {
    OldShape(4, talk);
    var first := messages[range.start];
    assert first == Old(4, talk)[range.start] == TextMessage(first.role, talk);
    TalkTokens(first.role, talk);
    assert MessageCosts(Slice(messages, range))[0] == MessageTokens(first);
    EstimateIsCappedCost(Slice(messages, range));
  }

  lemma {:induction false} OnlyTheQuestionStays(messages: seq<ChatMessage>, talk: string, groups: seq<Range>,
          maxTokens: U64)
    requires messages == Old(4, talk) + [TextMessage(User, "x")] && TextTokens(talk) >= 68
    requires Cuts(messages, groups) && Tiles(messages, groups, SystemPrefix(messages)) && OlderBudget(maxTokens) < 76
    ensures OnlyNewest(groups, Chosen(messages, groups, maxTokens))
  {
    ExampleShape(messages, talk);
    var tokens, prefixTokens := GroupTokens(messages, groups), Estimate(messages[..SystemPrefix(messages)]);
    forall g: nat | g < |groups| ensures Chosen(messages, groups, maxTokens)[g] <==> g == |groups| - 1 {
      SelectionIsGreedy(prefixTokens, tokens, OlderBudget(maxTokens), g);
      if g < |groups| - 1 {
        OlderStartsBefore(messages, groups, 0, g);
        OldGroupsAreDear(messages, talk, groups[g]);
      }
    }
  }

  /** What must stay fits in the budget less the reserve, and still the request does not fit in the budget. */
  lemma ReserveIsTooSmall()
    ensures Overflows(Example(), 325) && RequiredTokens(Example()) <= OlderBudget(325)
    ensures Project(Example(), 325).estimatedTokens > 325
  {
    var talk := Chatter(68);
    ChatterIsCompact(68);
    WordsAreCounted(talk, 68);
    OldIsWordy(talk);
    TalkOverflows(Example(), talk, 325);
  }

  lemma {:induction false} TalkOverflows(messages: seq<ChatMessage>, talk: string, maxTokens: U64)
    requires messages == Old(4, talk) + [TextMessage(User, "x")]
    requires TextTokens(talk) >= 68 && TextTokens(SummaryText(Old(4, talk))) >= 340
    requires 9 <= OlderBudget(maxTokens) < 10
    ensures Overflows(messages, maxTokens) && RequiredTokens(messages) <= OlderBudget(maxTokens)
    ensures Project(messages, maxTokens).estimatedTokens > maxTokens
  {
    ExampleShape(messages, talk);
    QuestionTokens();
    assert messages[5..] == [TextMessage(User, "x")] && messages[..0] == [];
    TalkIsExpensive(messages, talk);
    var groups := Groups(messages, 0);
    ProjectAssembles(messages, maxTokens, groups);
    OnlyTheQuestionStays(messages, talk, groups, maxTokens);
    TalkIsSummarised(messages, talk, groups, Chosen(messages, groups, maxTokens));
  }

  lemma {:induction false} TalkIsSummarised(messages: seq<ChatMessage>, talk: string, groups: seq<Range>,
          selected: seq<bool>)
    requires messages == Old(4, talk) + [TextMessage(User, "x")] && TextTokens(SummaryText(Old(4, talk))) >= 340
    requires Cuts(messages, groups) && Tiles(messages, groups, 0) && OnlyNewest(groups, selected)
    ensures Assemble(messages, 0, groups, selected).estimatedTokens > 325
  {
    ExampleShape(messages, talk);
    NewestSlice(messages, groups);
    OlderOmitted(messages, groups, selected, 0, 0);
    assert messages[0..5] == Old(4, talk) && messages[..0] == [];
    NewestKept(messages, groups, selected, 0);
    SummaryIsExpensive(talk, messages[..0] + [Compacted(Old(4, talk))] + messages[5..]);
  }

  lemma {:induction false} TalkIsExpensive(messages: seq<ChatMessage>, talk: string)
    requires messages == Old(4, talk) + [TextMessage(User, "x")] && TextTokens(talk) >= 68
    ensures Estimate(messages) > 325
  {
    OldShape(4, talk);
    forall i: nat | i < 5 ensures MessageTokens(messages[i]) >= 76 {
      assert messages[i] == Old(4, talk)[i];
      TalkTokens(messages[i].role, talk);
    }
    AtLeast(messages, 5);
    EstimateIsCappedCost(messages);
  }

  lemma {:induction false} AtLeast(messages: seq<ChatMessage>, count: nat)
    requires count <= |messages|
    requires forall i: nat | i < count :: MessageTokens(messages[i]) >= 76
    ensures Cost(messages) >= 76 * count
  {
    if count > 0 {
      AtLeast(messages[1..], count - 1);
    }
  }

  lemma {:induction false} SummaryIsExpensive(talk: string, projected: seq<ChatMessage>)
    requires TextTokens(SummaryText(Old(4, talk))) >= 340
    requires projected != [] && projected[0] == Compacted(Old(4, talk))
    ensures Estimate(projected) >= 348
  {
    var summary := Compacted(Old(4, talk));
    var tokens := TextTokens(SummaryText(Old(4, talk)));
    assert OptionalCost(summary.content) + OptionalCost(summary.toolCallId) + OptionalCost(summary.toolName)
           + CallCosts(summary.toolCalls) == [tokens];
    SaturatingSumIsCapped(8, [tokens]);
    EstimateIsCappedCost(projected);
  }
}
