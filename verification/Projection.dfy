// One bounded request out of a whole conversation: whole groups of messages are dropped, oldest
// first to go, and a summary takes their place.

module Projections {
  import opened Basics
  import opened Conversations
  import opened Summaries
  import opened Texts

  const SUMMARY_RESERVE_TOKENS: nat := SUMMARY_MAX_BYTES / 4 + 16

  // The estimate.

  function OptionalCost(text: Option<string>): seq<nat> {
    if text.Some? then [TextTokens(text.value)] else []
  }

  function CallCosts(calls: seq<ToolCall>): seq<nat> {
    if calls == [] then []
    else
      var call := calls[0];
      [TextTokens(call.name), TextTokens(call.argumentsJson), if call.providerResult.Some?
          then TextTokens(call.providerResult.value) else 0]
      + CallCosts(calls[1..])
  }

  function MessageTokens(message: ChatMessage): U64 {
    SaturatingSum(8, OptionalCost(message.content) + OptionalCost(message.toolCallId) + OptionalCost(message.toolName)
                     + CallCosts(message.toolCalls))
  }

  function MessageCosts(messages: seq<ChatMessage>): (costs: seq<nat>)
    ensures |costs| == |messages|
  {
    if messages == [] then [] else [MessageTokens(messages[0])] + MessageCosts(messages[1..])
  }

  /** `estimate_messages_tokens`. */
  function Estimate(messages: seq<ChatMessage>): U64 {
    SaturatingSum(0, MessageCosts(messages))
  }

  /** The same estimate, had the machine unbounded integers. */
  function Cost(messages: seq<ChatMessage>): nat {
    Sum(MessageCosts(messages))
  }

  lemma EstimateIsCappedCost(messages: seq<ChatMessage>)
    ensures Estimate(messages) == Min(Cost(messages), MAX_U64)
  {
    SaturatingSumIsCapped(0, MessageCosts(messages));
  }

  lemma {:induction false} CostConcat(a: seq<ChatMessage>, b: seq<ChatMessage>)
    ensures Cost(a + b) == Cost(a) + Cost(b)
  {
    if a == [] {
      assert a + b == b;
    } else {
      assert (a + b)[1..] == a[1..] + b;
      CostConcat(a[1..], b);
    }
  }

  // Groups.

  datatype Range = Range(start: nat, end: nat)

  predicate IsUser(message: ChatMessage) {
    message.role.User?
  }

  function GroupsFrom(messages: seq<ChatMessage>, groupStart: nat, index: nat): seq<Range>
    requires groupStart < index <= |messages|
    decreases |messages| - index
  {
    if index == |messages| then [Range(groupStart, index)]
    else if IsUser(messages[index]) then [Range(groupStart, index)] + GroupsFrom(messages, index, index + 1)
    else GroupsFrom(messages, groupStart, index + 1)
  }

  /** `conversation_groups`. */
  function Groups(messages: seq<ChatMessage>, start: nat): seq<Range> {
    if start >= |messages| then [] else GroupsFrom(messages, start, start + 1)
  }

  method ConversationGroups(messages: seq<ChatMessage>, start: nat) returns (groups: seq<Range>)
    ensures groups == Groups(messages, start)
  {
    if start >= |messages| {
      return [];
    }
    groups := [];
    var groupStart: nat := start;
    for index := start + 1 to |messages|
      invariant groupStart < index
      invariant groups + GroupsFrom(messages, groupStart, index) == Groups(messages, start)
    {
      if messages[index].role == User {
        groups := groups + [Range(groupStart, index)];
        groupStart := index;
      }
    }
    groups := groups + [Range(groupStart, |messages|)];
  }

  /**
   * The groups follow one another from `start` to the end, and are cut before every later user message and nowhere
   * else.
   */
  ghost predicate Tiles(messages: seq<ChatMessage>, groups: seq<Range>, start: nat) {
    && groups != []
    && groups[0].start == start
    && groups[|groups| - 1].end == |messages|
    && (forall g: nat | g < |groups| :: IsGroup(messages, groups[g]))
    && (forall g: nat | 0 < g < |groups| :: JoinsAt(messages, groups, g))
  }

  ghost predicate JoinsAt(messages: seq<ChatMessage>, groups: seq<Range>, g: nat)
    requires 0 < g < |groups|
  {
    groups[g - 1].end == groups[g].start < |messages| && IsUser(messages[groups[g].start])
  }

  ghost predicate IsGroup(messages: seq<ChatMessage>, group: Range) {
    group.start < group.end <= |messages| && forall k: nat | group.start < k < group.end :: !IsUser(messages[k])
  }

  lemma {:induction false} GroupsTile(messages: seq<ChatMessage>, groupStart: nat, index: nat)
    requires groupStart < index <= |messages|
    requires forall k: nat | groupStart < k < index :: !IsUser(messages[k])
    ensures Tiles(messages, GroupsFrom(messages, groupStart, index), groupStart)
    decreases |messages| - index
  {
    if index < |messages| {
      if IsUser(messages[index]) {
        GroupsTile(messages, index, index + 1);
        var later := GroupsFrom(messages, index, index + 1);
        var groups := [Range(groupStart, index)] + later;
        forall g: nat | g < |groups| ensures IsGroup(messages, groups[g]) {
          if g > 0 { assert groups[g] == later[g - 1]; }
        }
        forall g: nat | 0 < g < |groups| ensures JoinsAt(messages, groups, g) {
          if g > 1 { assert JoinsAt(messages, later, g - 1); }
        }
      } else {
        GroupsTile(messages, groupStart, index + 1);
      }
    }
  }

  // Selection, newest to oldest.

  function Slice(messages: seq<ChatMessage>, range: Range): seq<ChatMessage>
    requires range.start <= range.end <= |messages|
  {
    messages[range.start..range.end]
  }

  predicate Within(messages: seq<ChatMessage>, groups: seq<Range>) {
    forall g: nat | g < |groups| :: groups[g].start <= groups[g].end <= |messages|
  }

  function GroupTokens(messages: seq<ChatMessage>, groups: seq<Range>): (tokens: seq<U64>)
    requires Within(messages, groups)
    ensures |tokens| == |groups|
    ensures forall g: nat | g < |groups| :: tokens[g] == Estimate(Slice(messages, groups[g]))
  {
    seq(|groups|, g requires 0 <= g < |groups| => Estimate(Slice(messages, groups[g])))
  }

  /** Which of the first `count` groups stay, when what is newer already costs `selectedTokens`. */
  function Pick(tokens: seq<U64>, count: nat, selectedTokens: U64, olderBudget: nat): (picked: seq<bool>)
    requires count <= |tokens|
    ensures |picked| == count
    decreases count
  {
    if count == 0 then []
    else
      var total := SaturatingAdd(selectedTokens, tokens[count - 1]);
      var keep := total <= olderBudget;
      Pick(tokens, count - 1, if keep then total else selectedTokens, olderBudget) + [keep]
  }

  /** The newest group always stays. */
  function Selected(prefixTokens: U64, tokens: seq<U64>, olderBudget: nat): (selected: seq<bool>)
    requires tokens != []
    ensures |selected| == |tokens|
  {
    var newest := |tokens| - 1;
    Pick(tokens, newest, SaturatingAdd(prefixTokens, tokens[newest]), olderBudget) + [true]
  }

  /** The messages of the groups from `g` on whose mark is `mark`, in order. */
  function Marked(messages: seq<ChatMessage>, groups: seq<Range>, selected: seq<bool>, mark: bool,
          g: nat): seq<ChatMessage>
    requires Within(messages, groups) && |selected| == |groups|
    decreases |groups| - g
  {
    if g >= |groups| then []
    else (if selected[g] == mark then Slice(messages, groups[g]) else [])
         + Marked(messages, groups, selected, mark, g + 1)
  }

  datatype Projection = Projection(messages: seq<ChatMessage>, estimatedTokens: U64, omittedMessages: nat)

  function Untouched(messages: seq<ChatMessage>): Projection {
    Projection(messages, Estimate(messages), 0)
  }

  function Assemble(messages: seq<ChatMessage>, prefixEnd: nat, groups: seq<Range>, selected: seq<bool>): Projection
    requires prefixEnd <= |messages| && Within(messages, groups) && |selected| == |groups|
  {
    var omitted := Marked(messages, groups, selected, false, 0);
    if omitted == [] then Untouched(messages)
    else
      var projected := messages[..prefixEnd] + [Compacted(omitted)] + Marked(messages, groups, selected, true, 0);
      Projection(projected, Estimate(projected), |omitted|)
  }

  function OlderBudget(maxTokens: U64): nat {
    Max(Max(maxTokens, 1) - SUMMARY_RESERVE_TOKENS, 0)
  }

  /** `project`. */
  function Project(messages: seq<ChatMessage>, maxTokens: U64): Projection {
    var prefixEnd := SystemPrefix(messages);
    var groups := Groups(messages, prefixEnd);
    if messages == [] || Estimate(messages) <= Max(maxTokens, 1) || groups == [] then Untouched(messages)
    else
      GroupsAreWithin(messages);
      Assemble(messages, prefixEnd, groups,
          Selected(Estimate(messages[..prefixEnd]), GroupTokens(messages, groups), OlderBudget(maxTokens)))
  }

  lemma {:induction false} GroupsAreWithin(messages: seq<ChatMessage>)
    ensures Within(messages, Groups(messages, SystemPrefix(messages)))
    ensures SystemPrefix(messages) < |messages| ==>
              Tiles(messages, Groups(messages, SystemPrefix(messages)), SystemPrefix(messages))
  {
    var start := SystemPrefix(messages);
    if start < |messages| {
      GroupsTile(messages, start, start + 1);
      assert Within(messages, Groups(messages, start)) by {
        forall g: nat | g < |Groups(messages, start)|
          ensures Groups(messages, start)[g].start <= Groups(messages, start)[g].end <= |messages|
        {
          assert IsGroup(messages, Groups(messages, start)[g]);
        }
      }
    }
  }

  method SelectGroups(prefixTokens: U64, tokens: seq<U64>, olderBudget: nat) returns (marks: seq<bool>)
    requires tokens != []
    ensures marks == Selected(prefixTokens, tokens, olderBudget)
  {
    var selected := new bool[|tokens|](_ => false);
    var newest := |tokens| - 1;
    selected[newest] := true;
    var selectedTokens := SaturatingAdd(prefixTokens, tokens[newest]);
    ghost var startTokens := selectedTokens;
    for index := newest downto 0
      invariant selected[newest] && forall g: nat | g < index :: !selected[g]
      invariant Pick(tokens, newest, startTokens, olderBudget)
             == Pick(tokens, index, selectedTokens, olderBudget) + selected[index..newest]
    {
      ghost var laterMarks := selected[index + 1..newest];
      if SaturatingAdd(selectedTokens, tokens[index]) <= olderBudget {
        selected[index] := true;
        selectedTokens := SaturatingAdd(selectedTokens, tokens[index]);
      }
      Regroup(Pick(tokens, index, selectedTokens, olderBudget), [selected[index]], laterMarks);
      assert selected[index..newest] == [selected[index]] + laterMarks;
    }
    marks := selected[..];
    assert marks == selected[0..newest] + [true];
  }

  lemma CollectOne(messages: seq<ChatMessage>, groups: seq<Range>, selected: seq<bool>, mark: bool, index: nat,
          collected: seq<ChatMessage>)
    requires Within(messages, groups) && |selected| == |groups| && index < |groups|
    ensures collected + Marked(messages, groups, selected, mark, index)
            == (if selected[index] == mark then collected + Slice(messages, groups[index]) else collected)
               + Marked(messages, groups, selected, mark, index + 1)
  {
    Regroup(collected, Slice(messages, groups[index]), Marked(messages, groups, selected, mark, index + 1));
  }

  method CollectMarked(messages: seq<ChatMessage>, groups: seq<Range>, selected: seq<bool>, mark: bool)
    returns (collected: seq<ChatMessage>)
    requires Within(messages, groups) && |selected| == |groups|
    ensures collected == Marked(messages, groups, selected, mark, 0)
  {
    collected := [];
    for index := 0 to |groups|
      invariant collected + Marked(messages, groups, selected, mark, index)
                == Marked(messages, groups, selected, mark, 0)
    {
      CollectOne(messages, groups, selected, mark, index, collected);
      if selected[index] == mark {
        collected := collected + Slice(messages, groups[index]);
      }
    }
  }

  method AssembleMessages(messages: seq<ChatMessage>, prefixEnd: nat, groups: seq<Range>, selected: seq<bool>)
    returns (projection: Projection)
    requires prefixEnd <= |messages| && Within(messages, groups) && |selected| == |groups|
    ensures projection == Assemble(messages, prefixEnd, groups, selected)
  {
    var omitted := CollectMarked(messages, groups, selected, false);
    if |omitted| == 0 {
      return Projection(messages, Estimate(messages), 0);
    }
    var summary := CompactMessages(omitted);
    var kept := CollectMarked(messages, groups, selected, true);
    var projected := messages[..prefixEnd] + [summary] + kept;
    projection := Projection(projected, Estimate(projected), |omitted|);
  }

  method ProjectMessages(messages: seq<ChatMessage>, maxTokens: U64) returns (projection: Projection)
    ensures projection == Project(messages, maxTokens)
  {
    var estimatedTokens := Estimate(messages);
    if messages == [] || estimatedTokens <= Max(maxTokens, 1) {
      return Projection(messages, estimatedTokens, 0);
    }
    var prefixEnd := SystemPrefix(messages);
    var groups := ConversationGroups(messages, prefixEnd);
    if groups == [] {
      return Projection(messages, estimatedTokens, 0);
    }
    GroupsAreWithin(messages);
    var selected :=
        SelectGroups(Estimate(messages[..prefixEnd]), GroupTokens(messages, groups), OlderBudget(maxTokens));
    projection := AssembleMessages(messages, prefixEnd, groups, selected);
  }
}
