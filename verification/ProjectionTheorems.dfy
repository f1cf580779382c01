// What a projected request keeps, what it leaves out and why, and what it costs.

module ProjectionTheorems {
  import opened Basics
  import opened Conversations
  import opened Projections
  import opened Summaries
  import opened Texts

  /** The messages do not fit, and there is something beside the system prefix to leave out. */
  predicate Overflows(messages: seq<ChatMessage>, maxTokens: U64) {
    Estimate(messages) > Max(maxTokens, 1) && SystemPrefix(messages) < |messages|
  }

  ghost predicate Cuts(messages: seq<ChatMessage>, groups: seq<Range>) {
    SystemPrefix(messages) < |messages| && groups == Groups(messages, SystemPrefix(messages))
        && Within(messages, groups) && groups != []
  }

  ghost function Chosen(messages: seq<ChatMessage>, groups: seq<Range>, maxTokens: U64): (selected: seq<bool>)
    requires Cuts(messages, groups)
    ensures |selected| == |groups|
  {
    Selected(Estimate(messages[..SystemPrefix(messages)]), GroupTokens(messages, groups), OlderBudget(maxTokens))
  }

  lemma {:induction false} ProjectAssembles(messages: seq<ChatMessage>, maxTokens: U64, groups: seq<Range>)
    requires Overflows(messages, maxTokens)
    requires groups == Groups(messages, SystemPrefix(messages))
    ensures Cuts(messages, groups) && Tiles(messages, groups, SystemPrefix(messages))
    ensures Project(messages, maxTokens)
            == Assemble(messages, SystemPrefix(messages), groups, Chosen(messages, groups, maxTokens))
  {
    GroupsAreWithin(messages);
  }

  lemma OnlyOverflowIsCompacted(messages: seq<ChatMessage>, maxTokens: U64)
    ensures Project(messages, maxTokens).omittedMessages > 0 ==> Overflows(messages, maxTokens)
    ensures Project(messages, maxTokens).omittedMessages == 0 <==> Project(messages, maxTokens) == Untouched(messages)
  {
    if messages != [] && SystemPrefix(messages) < |messages| {
      GroupsAreWithin(messages);
    }
  }

  // Which groups stay.

  /** The cost of the prefix and of every chosen group from `g` on. */
  ghost function Load(prefixTokens: nat, tokens: seq<U64>, selected: seq<bool>, g: nat): nat
    requires |selected| == |tokens|
    decreases |tokens| - g
  {
    if g >= |tokens| then prefixTokens
    else (if selected[g] then tokens[g] else 0) + Load(prefixTokens, tokens, selected, g + 1)
  }

  lemma {:induction false} SelectionFrom(prefixTokens: U64, tokens: seq<U64>, olderBudget: nat, g: nat)
    requires g < |tokens| && olderBudget < MAX_U64
    ensures var selected := Selected(prefixTokens, tokens, olderBudget);
            var load := Load(prefixTokens, tokens, selected, g);
            && selected[..g] == Pick(tokens, g, Min(load, MAX_U64), olderBudget)
            && load <= Max(prefixTokens + tokens[|tokens| - 1], olderBudget)
    decreases |tokens| - g
  {
    var newest := |tokens| - 1;
    var selected := Selected(prefixTokens, tokens, olderBudget);
    if g == newest {
      assert Load(prefixTokens, tokens, selected, g + 1) == prefixTokens;
    } else {
      SelectionFrom(prefixTokens, tokens, olderBudget, g + 1);
      var load := Load(prefixTokens, tokens, selected, g + 1);
      var picked := Pick(tokens, g + 1, Min(load, MAX_U64), olderBudget);
      assert selected[g] == picked[g];
      assert selected[..g] == picked[..g];
    }
  }

  /** Newest first: a group stays exactly if it fits beside the prefix and the newer groups that stay. */
  lemma {:induction false} SelectionIsGreedy(prefixTokens: U64, tokens: seq<U64>, olderBudget: nat, g: nat)
    requires g < |tokens| && olderBudget < MAX_U64
    ensures var selected := Selected(prefixTokens, tokens, olderBudget);
            selected[g] <==> g == |tokens| - 1 || Load(prefixTokens, tokens, selected, g + 1) + tokens[g] <= olderBudget
  {
    var selected := Selected(prefixTokens, tokens, olderBudget);
    if g < |tokens| - 1 {
      SelectionFrom(prefixTokens, tokens, olderBudget, g + 1);
      var picked := Pick(tokens, g + 1, Min(Load(prefixTokens, tokens, selected, g + 1), MAX_U64), olderBudget);
      assert selected[g] == selected[..g + 1][g] == picked[g];
    }
  }

  /**
   * A group is left out only if it did not fit, in the budget less the reserve, beside the prefix and the newer
   * groups kept.
   */
  lemma {:induction false} GroupStaysIfItFits(messages: seq<ChatMessage>, maxTokens: U64, groups: seq<Range>, g: nat)
    requires Overflows(messages, maxTokens) && groups == Groups(messages, SystemPrefix(messages)) && g < |groups|
    ensures Cuts(messages, groups)
    ensures var prefixTokens, selected := Estimate(messages[..SystemPrefix(messages)]),
            Chosen(messages, groups, maxTokens);
            && Project(messages, maxTokens) == Assemble(messages, SystemPrefix(messages), groups, selected)
            && (selected[g] <==>
                  || g == |groups| - 1
                  || Load(prefixTokens, GroupTokens(messages, groups), selected, g + 1)
                      + Estimate(Slice(messages, groups[g])) <= OlderBudget(maxTokens))
  {
    ProjectAssembles(messages, maxTokens, groups);
    SelectionIsGreedy(Estimate(messages[..SystemPrefix(messages)]), GroupTokens(messages, groups),
        OlderBudget(maxTokens), g);
  }

  // What is kept and what is left out.

  /** Both parts keep their order, and together they are the whole. */
  ghost predicate Interleaves<T>(kept: seq<T>, omitted: seq<T>, whole: seq<T>)
    decreases |whole|
  {
    if whole == [] then kept == [] && omitted == []
    else
      || (kept != [] && kept[0] == whole[0] && Interleaves(kept[1..], omitted, whole[1..]))
      || (omitted != [] && omitted[0] == whole[0] && Interleaves(kept, omitted[1..], whole[1..]))
  }

  lemma {:induction false} InterleavesPrepend<T>(part: seq<T>, kept: seq<T>, omitted: seq<T>, whole: seq<T>)
    requires Interleaves(kept, omitted, whole)
    ensures Interleaves(part + kept, omitted, part + whole)
    ensures Interleaves(kept, part + omitted, part + whole)
  {
    if part == [] {
      assert part + kept == kept && part + whole == whole && part + omitted == omitted;
    } else {
      InterleavesPrepend(part[1..], kept, omitted, whole);
      assert (part + kept)[1..] == part[1..] + kept;
      assert (part + omitted)[1..] == part[1..] + omitted;
      assert (part + whole)[1..] == part[1..] + whole;
    }
  }

  lemma GroupSplits(messages: seq<ChatMessage>, groups: seq<Range>, start: nat, g: nat)
    requires Tiles(messages, groups, start) && g < |groups|
    ensures groups[g].start < groups[g].end <= |messages|
    ensures messages[groups[g].start..] == Slice(messages, groups[g]) + messages[groups[g].end..]
    ensures g + 1 == |groups| ==> messages[groups[g].end..] == []
    ensures g + 1 < |groups| ==> groups[g].end == groups[g + 1].start < |messages|
                                 && IsUser(messages[groups[g + 1].start])
  {
    assert IsGroup(messages, groups[g]);
    if g + 1 < |groups| {
      assert JoinsAt(messages, groups, g + 1);
    }
  }

  lemma {:induction false} MarksInterleave(messages: seq<ChatMessage>, groups: seq<Range>, selected: seq<bool>,
          g: nat, start: nat)
    requires Tiles(messages, groups, start) && Within(messages, groups) && |selected| == |groups| && g < |groups|
    ensures Interleaves(Marked(messages, groups, selected, true, g), Marked(messages, groups, selected, false, g),
            messages[groups[g].start..])
    decreases |groups| - g
  {
    GroupSplits(messages, groups, start, g);
    var slice, rest := Slice(messages, groups[g]), messages[groups[g].end..];
    if g + 1 < |groups| {
      MarksInterleave(messages, groups, selected, g + 1, start);
    }
    MarkedSplits(messages, groups, selected, true, g);
    MarkedSplits(messages, groups, selected, false, g);
    InterleavesPrepend(slice, Marked(messages, groups, selected, true, g + 1),
        Marked(messages, groups, selected, false, g + 1), rest);
  }

  lemma MarkedSplits(messages: seq<ChatMessage>, groups: seq<Range>, selected: seq<bool>, mark: bool, g: nat)
    requires Within(messages, groups) && |selected| == |groups| && g < |groups|
    ensures Marked(messages, groups, selected, mark, g)
         == if selected[g] == mark then Slice(messages, groups[g]) + Marked(messages, groups, selected, mark, g + 1)
            else Marked(messages, groups, selected, mark, g + 1)
  {
  }

  ghost predicate Ends<T>(whole: seq<T>, part: seq<T>) {
    |part| <= |whole| && whole[|whole| - |part|..] == part
  }

  lemma {:induction false} GroupStartsAfterPrefix(messages: seq<ChatMessage>, groups: seq<Range>, g: nat, start: nat)
    requires Tiles(messages, groups, start) && g < |groups|
    ensures start <= groups[g].start
  {
    if g > 0 {
      GroupStartsAfterPrefix(messages, groups, g - 1, start);
      assert IsGroup(messages, groups[g - 1]) && JoinsAt(messages, groups, g);
    }
  }

  /** The start of the newest group: the last user message, or the end of the prefix if there is none. */
  function NewestStart(messages: seq<ChatMessage>): (start: nat)
    requires SystemPrefix(messages) < |messages|
    ensures SystemPrefix(messages) <= start < |messages|
  {
    var groups := Groups(messages, SystemPrefix(messages));
    GroupsAreWithin(messages);
    GroupStartsAfterPrefix(messages, groups, |groups| - 1, SystemPrefix(messages));
    groups[|groups| - 1].start
  }

  lemma {:induction false} NewestStartIsLastRequest(messages: seq<ChatMessage>)
    requires SystemPrefix(messages) < |messages|
    ensures var start := NewestStart(messages);
            && (IsUser(messages[start]) || start == SystemPrefix(messages))
            && forall k: nat | start < k < |messages| :: !IsUser(messages[k])
  {
    GroupsAreWithin(messages);
    var groups := Groups(messages, SystemPrefix(messages));
    var last := |groups| - 1;
    assert IsGroup(messages, groups[last]) && (last > 0 ==> JoinsAt(messages, groups, last));
  }

  lemma EndsPrepend<T>(own: seq<T>, later: seq<T>, part: seq<T>)
    requires Ends(later, part)
    ensures Ends(own + later, part)
  {
  }

  lemma {:induction false} KeptEnds(messages: seq<ChatMessage>, groups: seq<Range>, selected: seq<bool>, g: nat)
    requires Within(messages, groups) && |selected| == |groups| && g < |groups| && selected[|groups| - 1]
    ensures Ends(Marked(messages, groups, selected, true, g), Slice(messages, groups[|groups| - 1]))
    decreases |groups| - g
  {
    MarkedSplits(messages, groups, selected, true, g);
    var later := Marked(messages, groups, selected, true, g + 1);
    if g < |groups| - 1 {
      KeptEnds(messages, groups, selected, g + 1);
      EndsPrepend(Slice(messages, groups[g]), later, Slice(messages, groups[|groups| - 1]));
    } else {
      assert later == [];
    }
  }

  /** The prefix, a summary of exactly what is missing, and the rest in order, up to the whole newest group. */
  ghost predicate CompactedAs(messages: seq<ChatMessage>, projection: Projection, kept: seq<ChatMessage>,
          omitted: seq<ChatMessage>)
    requires SystemPrefix(messages) < |messages|
  {
    && projection.messages == messages[..SystemPrefix(messages)] + [Compacted(omitted)] + kept
    && Interleaves(kept, omitted, messages[SystemPrefix(messages)..])
    && |omitted| == projection.omittedMessages
    && Ends(kept, messages[NewestStart(messages)..])
  }

  lemma CompactedRequest(messages: seq<ChatMessage>, maxTokens: U64)
    returns (kept: seq<ChatMessage>, omitted: seq<ChatMessage>)
    requires Overflows(messages, maxTokens) && Project(messages, maxTokens).omittedMessages > 0
    ensures CompactedAs(messages, Project(messages, maxTokens), kept, omitted)
  {
    var groups := Groups(messages, SystemPrefix(messages));
    ProjectAssembles(messages, maxTokens, groups);
    kept, omitted := AssembledRequest(messages, groups, Chosen(messages, groups, maxTokens));
  }

  lemma AssembledRequest(messages: seq<ChatMessage>, groups: seq<Range>, selected: seq<bool>)
    returns (kept: seq<ChatMessage>, omitted: seq<ChatMessage>)
    requires Cuts(messages, groups) && Tiles(messages, groups, SystemPrefix(messages))
    requires |selected| == |groups| && selected[|groups| - 1]
    requires Assemble(messages, SystemPrefix(messages), groups, selected).omittedMessages > 0
    ensures CompactedAs(messages, Assemble(messages, SystemPrefix(messages), groups, selected), kept, omitted)
  {
    kept, omitted := Marked(messages, groups, selected, true, 0), Marked(messages, groups, selected, false, 0);
    MarksInterleave(messages, groups, selected, 0, SystemPrefix(messages));
    KeptEnds(messages, groups, selected, 0);
    NewestSlice(messages, groups);
  }

  lemma {:induction false} NewestSlice(messages: seq<ChatMessage>, groups: seq<Range>)
    requires Cuts(messages, groups) && Tiles(messages, groups, SystemPrefix(messages))
    ensures NewestStart(messages) < |messages|
    ensures Slice(messages, groups[|groups| - 1]) == messages[NewestStart(messages)..]
  {
    GroupSplits(messages, groups, SystemPrefix(messages), |groups| - 1);
  }

  // Cost.

  lemma GroupCost(messages: seq<ChatMessage>, groups: seq<Range>, selected: seq<bool>, g: nat)
    requires Within(messages, groups) && |selected| == |groups| && g < |groups|
    ensures Cost(Marked(messages, groups, selected, true, g))
         == (if selected[g] then Cost(Slice(messages, groups[g])) else 0)
             + Cost(Marked(messages, groups, selected, true, g + 1))
  {
    MarkedSplits(messages, groups, selected, true, g);
    if selected[g] {
      CostConcat(Slice(messages, groups[g]), Marked(messages, groups, selected, true, g + 1));
    }
  }

  lemma GroupLoad(messages: seq<ChatMessage>, groups: seq<Range>, selected: seq<bool>, g: nat)
    requires Within(messages, groups) && |selected| == |groups| && g < |groups|
    ensures Load(0, GroupTokens(messages, groups), selected, g)
         == (if selected[g] then Min(Cost(Slice(messages, groups[g])), MAX_U64) else 0)
            + Load(0, GroupTokens(messages, groups), selected, g + 1)
  {
    EstimateIsCappedCost(Slice(messages, groups[g]));
  }

  lemma CapsAdd(own: nat, cost: nat, load: nat)
    requires Min(cost, MAX_U64) == Min(load, MAX_U64)
    ensures Min(own + cost, MAX_U64) == Min(Min(own, MAX_U64) + load, MAX_U64)
  {
  }

  lemma {:induction false} KeptCost(messages: seq<ChatMessage>, groups: seq<Range>, selected: seq<bool>, g: nat)
    requires Within(messages, groups) && |selected| == |groups|
    ensures Min(Cost(Marked(messages, groups, selected, true, g)), MAX_U64)
         == Min(Load(0, GroupTokens(messages, groups), selected, g), MAX_U64)
    decreases |groups| - g
  {
    if g < |groups| {
      KeptCost(messages, groups, selected, g + 1);
      GroupCost(messages, groups, selected, g);
      GroupLoad(messages, groups, selected, g);
      CapsAdd(if selected[g] then Cost(Slice(messages, groups[g])) else 0,
              Cost(Marked(messages, groups, selected, true, g + 1)),
              Load(0, GroupTokens(messages, groups), selected, g + 1));
    }
  }

  lemma {:induction false} LoadAddsPrefix(prefixTokens: nat, tokens: seq<U64>, selected: seq<bool>, g: nat)
    requires |selected| == |tokens|
    ensures Load(prefixTokens, tokens, selected, g) == prefixTokens + Load(0, tokens, selected, g)
    decreases |tokens| - g
  {
    if g < |tokens| {
      LoadAddsPrefix(prefixTokens, tokens, selected, g + 1);
    }
  }

  lemma SummaryCost(messages: seq<ChatMessage>)
    ensures Cost([Compacted(messages)]) == MessageTokens(Compacted(messages)) <= 608
  {
    SummaryIsBounded(messages);
    var summary := Compacted(messages);
    assert MessageCosts([summary]) == [MessageTokens(summary)];
    var tokens := TextTokens(SummaryText(messages));
    assert OptionalCost(summary.content) + OptionalCost(summary.toolCallId) + OptionalCost(summary.toolName)
           + CallCosts(summary.toolCalls) == [tokens];
    SaturatingSumIsCapped(8, [tokens]);
    assert Sum([tokens]) == tokens;
    assert Sum([MessageTokens(summary)]) == MessageTokens(summary);
  }

  lemma ThreePartEstimate(prefix: seq<ChatMessage>, middle: ChatMessage, kept: seq<ChatMessage>)
    ensures Estimate(prefix + [middle] + kept) == Min(Estimate(prefix) + MessageTokens(middle) + Cost(kept), MAX_U64)
  {
    CostConcat(prefix, [middle]);
    CostConcat(prefix + [middle], kept);
    assert MessageCosts([middle]) == [MessageTokens(middle)];
    assert Sum([MessageTokens(middle)]) == MessageTokens(middle);
    EstimateIsCappedCost(prefix);
    EstimateIsCappedCost(prefix + [middle] + kept);
  }

  ghost function KeptLoad(messages: seq<ChatMessage>, prefixEnd: nat, groups: seq<Range>, selected: seq<bool>): nat
    requires prefixEnd <= |messages| && Within(messages, groups) && |selected| == |groups|
  {
    Load(Estimate(messages[..prefixEnd]), GroupTokens(messages, groups), selected, 0)
  }

  lemma {:induction false} KeptEstimate(messages: seq<ChatMessage>, prefixEnd: nat, groups: seq<Range>,
          selected: seq<bool>, summary: ChatMessage)
    requires prefixEnd <= |messages| && Within(messages, groups) && |selected| == |groups|
    ensures Estimate(messages[..prefixEnd] + [summary] + Marked(messages, groups, selected, true, 0))
         == Min(KeptLoad(messages, prefixEnd, groups, selected) + MessageTokens(summary), MAX_U64)
  {
    ThreePartEstimate(messages[..prefixEnd], summary, Marked(messages, groups, selected, true, 0));
    KeptCost(messages, groups, selected, 0);
    LoadAddsPrefix(Estimate(messages[..prefixEnd]), GroupTokens(messages, groups), selected, 0);
  }

  /** The estimate of a compacted request is its prefix, its summary and the groups it keeps. */
  lemma AssembledCost(messages: seq<ChatMessage>, prefixEnd: nat, groups: seq<Range>, selected: seq<bool>)
    returns (summary: ChatMessage)
    requires prefixEnd <= |messages| && Within(messages, groups) && |selected| == |groups|
    requires Marked(messages, groups, selected, false, 0) != []
    ensures summary == Compacted(Marked(messages, groups, selected, false, 0)) && MessageTokens(summary) <= 608
    ensures Assemble(messages, prefixEnd, groups, selected).estimatedTokens
         == Min(KeptLoad(messages, prefixEnd, groups, selected) + MessageTokens(summary), MAX_U64)
  {
    summary := Compacted(Marked(messages, groups, selected, false, 0));
    SummaryCost(Marked(messages, groups, selected, false, 0));
    KeptEstimate(messages, prefixEnd, groups, selected, summary);
  }

  /** What must stay whatever the budget: the prefix and the newest group. */
  function RequiredTokens(messages: seq<ChatMessage>): nat
    requires SystemPrefix(messages) < |messages|
  {
    Estimate(messages[..SystemPrefix(messages)]) + Estimate(messages[NewestStart(messages)..])
  }

  /** The real bound: what must stay, or the budget less its reserve, plus the largest possible summary. */
  lemma ProjectionCost(messages: seq<ChatMessage>, maxTokens: U64)
    requires Overflows(messages, maxTokens) && Project(messages, maxTokens).omittedMessages > 0
    ensures Project(messages, maxTokens).estimatedTokens <= Max(RequiredTokens(messages), OlderBudget(maxTokens)) + 608
  {
    var prefixEnd := SystemPrefix(messages);
    var groups := Groups(messages, prefixEnd);
    ProjectAssembles(messages, maxTokens, groups);
    NewestSlice(messages, groups);
    var prefixTokens, tokens, older := Estimate(messages[..prefixEnd]), GroupTokens(messages, groups),
        OlderBudget(maxTokens);
    ChosenCost(messages, prefixEnd, groups, prefixTokens, tokens, Chosen(messages, groups, maxTokens), older);
  }

  lemma {:induction false} ChosenCost(messages: seq<ChatMessage>, prefixEnd: nat, groups: seq<Range>,
                   prefixTokens: U64, tokens: seq<U64>, selected: seq<bool>, olderBudget: nat)
    requires prefixEnd <= |messages| && Within(messages, groups) && groups != [] && olderBudget < MAX_U64
    requires prefixTokens == Estimate(messages[..prefixEnd]) && tokens == GroupTokens(messages, groups)
    requires selected == Selected(prefixTokens, tokens, olderBudget)
    requires Marked(messages, groups, selected, false, 0) != []
    ensures Assemble(messages, prefixEnd, groups, selected).estimatedTokens
         <= Max(prefixTokens + tokens[|groups| - 1], olderBudget) + 608
  {
    SelectionFrom(prefixTokens, tokens, olderBudget, 0);
    var _ := AssembledCost(messages, prefixEnd, groups, selected);
  }

  /** Short of a required part that is itself too large, the overshoot is at most 292 tokens. */
  lemma OvershootIsBounded(messages: seq<ChatMessage>, maxTokens: U64)
    requires Overflows(messages, maxTokens) && Project(messages, maxTokens).omittedMessages > 0
    requires RequiredTokens(messages) <= OlderBudget(maxTokens)
    ensures Project(messages, maxTokens).estimatedTokens <= maxTokens + 292
  {
    ReserveIsInBudget(messages, maxTokens);
    ProjectionCost(messages, maxTokens);
  }

  // When the reserve is enough.

  lemma {:induction false} LoadShrinks(prefixTokens: nat, tokens: seq<U64>, selected: seq<bool>, g: nat)
    requires |selected| == |tokens| && g <= |tokens|
    ensures Load(prefixTokens, tokens, selected, g) <= Load(prefixTokens, tokens, selected, 0)
    decreases g
  {
    if g > 0 {
      LoadShrinks(prefixTokens, tokens, selected, g - 1);
    }
  }

  lemma {:induction false} SameLoad(prefixTokens: nat, tokens: seq<U64>, a: seq<bool>, b: seq<bool>, g: nat)
    requires |a| == |b| == |tokens| && g <= |tokens| && a[g..] == b[g..]
    ensures Load(prefixTokens, tokens, a, g) == Load(prefixTokens, tokens, b, g)
    decreases |tokens| - g
  {
    if g < |tokens| {
      assert a[g] == a[g..][0] == b[g..][0] == b[g];
      assert a[g + 1..] == a[g..][1..] == b[g..][1..] == b[g + 1..];
      SameLoad(prefixTokens, tokens, a, b, g + 1);
    }
  }

  /** Tightening the budget down to what was kept changes no choice. */
  lemma {:induction false} SameSelection(prefixTokens: U64, tokens: seq<U64>, olderBudget: nat, tighter: nat, g: nat)
    requires tokens != [] && tighter <= olderBudget < MAX_U64 && g <= |tokens|
    requires Load(prefixTokens, tokens, Selected(prefixTokens, tokens, olderBudget), 0) <= tighter
    ensures Selected(prefixTokens, tokens, tighter)[g..] == Selected(prefixTokens, tokens, olderBudget)[g..]
    decreases |tokens| - g
  {
    if g < |tokens| {
      var loose, tight := Selected(prefixTokens, tokens, olderBudget), Selected(prefixTokens, tokens, tighter);
      SameSelection(prefixTokens, tokens, olderBudget, tighter, g + 1);
      SameLoad(prefixTokens, tokens, tight, loose, g + 1);
      LoadShrinks(prefixTokens, tokens, loose, g);
      SelectionIsGreedy(prefixTokens, tokens, olderBudget, g);
      SelectionIsGreedy(prefixTokens, tokens, tighter, g);
      assert tight[g..] == [tight[g]] + tight[g + 1..] && loose[g..] == [loose[g]] + loose[g + 1..];
    }
  }

  lemma RequiredIsSomething(messages: seq<ChatMessage>)
    requires SystemPrefix(messages) < |messages|
    ensures RequiredTokens(messages) >= 8
  {
    SomeMessagesCost(messages[NewestStart(messages)..]);
  }

  lemma SomeMessagesCost(messages: seq<ChatMessage>)
    requires messages != []
    ensures Estimate(messages) >= 8
  {
    EstimateIsCappedCost(messages);
    OneMessageCosts(messages[0]);
    assert Cost(messages) == MessageTokens(messages[0]) + Sum(MessageCosts(messages[1..]));
  }

  lemma OneMessageCosts(message: ChatMessage)
    ensures MessageTokens(message) >= 8
  {
    SaturatingSumIsCapped(8, OptionalCost(message.content) + OptionalCost(message.toolCallId)
        + OptionalCost(message.toolName) + CallCosts(message.toolCalls));
  }

  lemma ReserveIsInBudget(messages: seq<ChatMessage>, budget: U64)
    requires SystemPrefix(messages) < |messages| && RequiredTokens(messages) <= OlderBudget(budget)
    ensures SUMMARY_RESERVE_TOKENS <= budget
  {
    RequiredIsSomething(messages);
  }

  /**
   * The budgets at which the request overflows, what must stay fits beside the reserve, and exactly these groups are
   * kept.
   */
  ghost predicate SelectsAs(messages: seq<ChatMessage>, groups: seq<Range>, selected: seq<bool>, budget: U64)
    requires Cuts(messages, groups)
  {
    && Overflows(messages, budget)
    && RequiredTokens(messages) <= OlderBudget(budget)
    && selected == Chosen(messages, groups, budget)
  }

  /** What is kept costs at least what must stay, and at most the budget less the reserve. */
  lemma KeptFits(messages: seq<ChatMessage>, groups: seq<Range>, selected: seq<bool>, budget: U64)
    requires Cuts(messages, groups) && SelectsAs(messages, groups, selected, budget)
    ensures RequiredTokens(messages) <= KeptLoad(messages, SystemPrefix(messages), groups, selected)
            <= OlderBudget(budget)
  {
    RequiredIsNewest(messages, groups);
    SelectionCosts(Estimate(messages[..SystemPrefix(messages)]), GroupTokens(messages, groups), OlderBudget(budget));
  }

  lemma RequiredIsNewest(messages: seq<ChatMessage>, groups: seq<Range>)
    requires Cuts(messages, groups)
    ensures RequiredTokens(messages) == Estimate(messages[..SystemPrefix(messages)])
            + GroupTokens(messages, groups)[|groups| - 1]
  {
    GroupsAreWithin(messages);
    NewestSlice(messages, groups);
  }

  lemma SelectionCosts(prefixTokens: U64, tokens: seq<U64>, olderBudget: nat)
    requires tokens != [] && olderBudget < MAX_U64
    ensures var required, load := prefixTokens + tokens[|tokens| - 1],
            Load(prefixTokens, tokens, Selected(prefixTokens, tokens, olderBudget), 0);
            required <= load <= Max(required, olderBudget)
  {
    var selected := Selected(prefixTokens, tokens, olderBudget);
    SelectionFrom(prefixTokens, tokens, olderBudget, 0);
    LoadShrinks(prefixTokens, tokens, selected, |tokens| - 1);
    assert Load(prefixTokens, tokens, selected, |tokens|) == prefixTokens;
  }

  /** The summary that takes the place of everything left out. */
  ghost predicate Summarises(summary: ChatMessage, messages: seq<ChatMessage>, groups: seq<Range>, selected: seq<bool>)
    requires Within(messages, groups) && |selected| == |groups|
  {
    var omitted := Marked(messages, groups, selected, false, 0);
    omitted != [] && summary == Compacted(omitted)
  }

  lemma AssembledCostOf(messages: seq<ChatMessage>, prefixEnd: nat, groups: seq<Range>, selected: seq<bool>,
          summary: ChatMessage)
    requires prefixEnd <= |messages| && Within(messages, groups) && |selected| == |groups|
    requires Summarises(summary, messages, groups, selected)
    ensures Assemble(messages, prefixEnd, groups, selected).estimatedTokens
         == Min(KeptLoad(messages, prefixEnd, groups, selected) + MessageTokens(summary), MAX_U64)
  {
    var same := AssembledCost(messages, prefixEnd, groups, selected);
    assert same == summary;
  }

  lemma ChosenAtTightest(messages: seq<ChatMessage>, groups: seq<Range>, budget: U64, tightest: U64)
    requires Cuts(messages, groups)
    requires KeptLoad(messages, SystemPrefix(messages), groups, Chosen(messages, groups, budget))
             <= OlderBudget(tightest) <= OlderBudget(budget)
    ensures Chosen(messages, groups, tightest) == Chosen(messages, groups, budget)
  {
    var prefixTokens, tokens := Estimate(messages[..SystemPrefix(messages)]), GroupTokens(messages, groups);
    SameSelection(prefixTokens, tokens, OlderBudget(budget), OlderBudget(tightest), 0);
    assert Selected(prefixTokens, tokens, OlderBudget(tightest))[0..]
           == Selected(prefixTokens, tokens, OlderBudget(tightest));
    assert Selected(prefixTokens, tokens, OlderBudget(budget))[0..]
           == Selected(prefixTokens, tokens, OlderBudget(budget));
  }

  lemma ReserveIsTaken(budget: U64)
    requires SUMMARY_RESERVE_TOKENS <= budget
    ensures OlderBudget(budget) == budget - SUMMARY_RESERVE_TOKENS
  {
  }

  lemma OverflowsBelow(messages: seq<ChatMessage>, budget: U64, tighter: U64)
    requires Overflows(messages, budget) && 1 <= tighter <= budget
    ensures Overflows(messages, tighter)
  {
  }

  /** The tightest budget that keeps these groups. */
  lemma TightestSelects(messages: seq<ChatMessage>, groups: seq<Range>, selected: seq<bool>, budget: U64)
    returns (tightest: U64)
    requires Cuts(messages, groups) && SelectsAs(messages, groups, selected, budget)
    ensures tightest == KeptLoad(messages, SystemPrefix(messages), groups, selected) + SUMMARY_RESERVE_TOKENS <= budget
    ensures SelectsAs(messages, groups, selected, tightest)
  {
    KeptFits(messages, groups, selected, budget);
    ReserveIsInBudget(messages, budget);
    ReserveIsTaken(budget);
    tightest := KeptLoad(messages, SystemPrefix(messages), groups, selected) + SUMMARY_RESERVE_TOKENS;
    ReserveIsTaken(tightest);
    ChosenAtTightest(messages, groups, budget, tightest);
    OverflowsBelow(messages, budget, tightest);
  }

  /** A request that keeps these groups, beside a summary of the given worth. */
  ghost predicate Costs(messages: seq<ChatMessage>, groups: seq<Range>, selected: seq<bool>, worth: nat)
    requires Cuts(messages, groups) && |selected| == |groups|
  {
    Assemble(messages, SystemPrefix(messages), groups, selected).estimatedTokens
    == Min(KeptLoad(messages, SystemPrefix(messages), groups, selected) + worth, MAX_U64)
  }

  lemma FitsIfReserved(messages: seq<ChatMessage>, groups: seq<Range>, selected: seq<bool>, budget: U64, worth: nat)
    requires Cuts(messages, groups) && SelectsAs(messages, groups, selected, budget)
    requires Costs(messages, groups, selected, worth) && worth <= SUMMARY_RESERVE_TOKENS
    ensures Project(messages, budget).estimatedTokens <= budget
  {
    KeptFits(messages, groups, selected, budget);
    ReserveIsInBudget(messages, budget);
    ReserveIsTaken(budget);
    ProjectAssembles(messages, budget, groups);
  }

  lemma OverrunsAtTightest(messages: seq<ChatMessage>, groups: seq<Range>, selected: seq<bool>,
          tightest: U64, worth: nat)
    requires Cuts(messages, groups) && SelectsAs(messages, groups, selected, tightest)
    requires tightest == KeptLoad(messages, SystemPrefix(messages), groups, selected) + SUMMARY_RESERVE_TOKENS
    requires Costs(messages, groups, selected, worth) && worth > SUMMARY_RESERVE_TOKENS
    ensures Project(messages, tightest).estimatedTokens > tightest
  {
    ProjectAssembles(messages, tightest, groups);
  }

  lemma SummaryIsWorth(messages: seq<ChatMessage>, groups: seq<Range>, selected: seq<bool>, summary: ChatMessage)
    requires Cuts(messages, groups) && |selected| == |groups| && Summarises(summary, messages, groups, selected)
    ensures Costs(messages, groups, selected, MessageTokens(summary))
  {
    AssembledCostOf(messages, SystemPrefix(messages), groups, selected, summary);
  }

  /**
   * Whichever of the budgets is set that leave room for what must stay and the reserve, and keep exactly these
   * groups, the request fits.
   */
  ghost predicate EveryBudgetFits(messages: seq<ChatMessage>, groups: seq<Range>, selected: seq<bool>)
    requires Cuts(messages, groups)
  {
    forall budget: U64 | SelectsAs(messages, groups, selected, budget) ::
        Project(messages, budget).estimatedTokens <= budget
  }

  lemma WorthDecides(messages: seq<ChatMessage>, groups: seq<Range>, selected: seq<bool>, some: U64, worth: nat)
    requires Cuts(messages, groups) && SelectsAs(messages, groups, selected, some)
             && Costs(messages, groups, selected, worth)
    ensures worth <= SUMMARY_RESERVE_TOKENS <==> EveryBudgetFits(messages, groups, selected)
  {
    if worth <= SUMMARY_RESERVE_TOKENS {
      forall budget: U64 | SelectsAs(messages, groups, selected, budget)
        ensures Project(messages, budget).estimatedTokens <= budget
      {
        FitsIfReserved(messages, groups, selected, budget, worth);
      }
    } else {
      var tightest := TightestSelects(messages, groups, selected, some);
      OverrunsAtTightest(messages, groups, selected, tightest, worth);
    }
  }

  /**
   * Where what must stay fits beside the reserve: of all such budgets that lead to the same choice of groups, every
   * request fits if and only if the summary of what that choice leaves out is worth no more than the reserve.
   */
  lemma ReserveDecides(messages: seq<ChatMessage>, groups: seq<Range>, selected: seq<bool>, some: U64,
          summary: ChatMessage)
    requires Cuts(messages, groups) && SelectsAs(messages, groups, selected, some)
    requires Summarises(summary, messages, groups, selected)
    ensures MessageTokens(summary) <= SUMMARY_RESERVE_TOKENS <==> EveryBudgetFits(messages, groups, selected)
  {
    SummaryIsWorth(messages, groups, selected, summary);
    WorthDecides(messages, groups, selected, some, MessageTokens(summary));
  }

  // Well-formedness.

  lemma {:induction false} KeptIsWellFormed(messages: seq<ChatMessage>, groups: seq<Range>, selected: seq<bool>,
          g: nat, start: nat)
    requires Tiles(messages, groups, start) && Within(messages, groups) && |selected| == |groups| && g < |groups|
    requires WellFormed(messages[groups[g].start..])
    ensures WellFormed(Marked(messages, groups, selected, true, g))
    decreases |groups| - g
  {
    GroupSplits(messages, groups, start, g);
    var slice, rest := Slice(messages, groups[g]), messages[groups[g].end..];
    WellFormedCut(slice, rest);
    var later := Marked(messages, groups, selected, true, g + 1);
    if g + 1 < |groups| {
      KeptIsWellFormed(messages, groups, selected, g + 1, start);
    }
    WellFormedConcat(slice, later);
    MarkedSplits(messages, groups, selected, true, g);
  }

  lemma {:induction false} AssembledIsWellFormed(messages: seq<ChatMessage>, groups: seq<Range>, selected: seq<bool>)
    requires Cuts(messages, groups) && Tiles(messages, groups, SystemPrefix(messages)) && |selected| == |groups|
    requires WellFormed(messages)
    ensures WellFormed(Assemble(messages, SystemPrefix(messages), groups, selected).messages)
  {
    var omitted, kept := Marked(messages, groups, selected, false, 0), Marked(messages, groups, selected, true, 0);
    var prefix, summary := messages[..SystemPrefix(messages)], [Compacted(omitted)];
    SystemPrefixSplits(messages);
    KeptIsWellFormed(messages, groups, selected, 0, SystemPrefix(messages));
    PlainMessagesAreWellFormed(summary);
    WellFormedConcat(prefix, summary);
    WellFormedConcat(prefix + summary, kept);
  }

  /** Leaving groups out never separates a tool call from its answer. */
  lemma {:induction false} ProjectionIsWellFormed(messages: seq<ChatMessage>, maxTokens: U64)
    requires WellFormed(messages)
    ensures WellFormed(Project(messages, maxTokens).messages)
  {
    if Overflows(messages, maxTokens) {
      var groups := Groups(messages, SystemPrefix(messages));
      ProjectAssembles(messages, maxTokens, groups);
      AssembledIsWellFormed(messages, groups, Chosen(messages, groups, maxTokens));
    } else {
      OnlyOverflowIsCompacted(messages, maxTokens);
    }
  }
}
