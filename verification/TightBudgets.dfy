// Budgets too tight for what must stay and the summary's reserve: only the newest group is kept,
// and whether the request fits is decided before it is made.

module TightBudgets {
  import opened Basics
  import opened Conversations
  import opened Projections
  import opened ProjectionTheorems
  import opened Summaries

  // Only the newest group stays.

  ghost predicate OnlyNewest(groups: seq<Range>, selected: seq<bool>) {
    |selected| == |groups| && forall i: nat | i < |groups| :: selected[i] <==> i == |groups| - 1
  }

  lemma OmitOneMore(messages: seq<ChatMessage>, groups: seq<Range>, selected: seq<bool>, g: nat, to: nat)
    requires Within(messages, groups) && |selected| == |groups| && g < |groups| && !selected[g]
    requires groups[g].end <= to <= |messages|
    requires Marked(messages, groups, selected, false, g + 1) == messages[groups[g].end..to]
    ensures Marked(messages, groups, selected, false, g) == messages[groups[g].start..to]
  {
    MarkedSplits(messages, groups, selected, false, g);
    SliceSplits(messages, groups[g].start, groups[g].end, to);
  }

  lemma {:induction false} OlderOmitted(messages: seq<ChatMessage>, groups: seq<Range>, selected: seq<bool>,
          start: nat, g: nat)
    requires Tiles(messages, groups, start) && Within(messages, groups) && OnlyNewest(groups, selected) && g < |groups|
    ensures groups[g].start <= groups[|groups| - 1].start
    ensures Marked(messages, groups, selected, false, g) == messages[groups[g].start..groups[|groups| - 1].start]
    decreases |groups| - g
  {
    GroupSplits(messages, groups, start, g);
    if g < |groups| - 1 {
      OlderOmitted(messages, groups, selected, start, g + 1);
      OmitOneMore(messages, groups, selected, g, groups[|groups| - 1].start);
    } else {
      MarkedSplits(messages, groups, selected, false, g);
    }
  }

  lemma SliceSplits<T>(s: seq<T>, from: nat, mid: nat, to: nat)
    requires from <= mid <= to <= |s|
    ensures s[from..to] == s[from..mid] + s[mid..to]
  {
  }

  lemma {:induction false} NewestKept(messages: seq<ChatMessage>, groups: seq<Range>, selected: seq<bool>, g: nat)
    requires Within(messages, groups) && OnlyNewest(groups, selected) && g < |groups|
    ensures Marked(messages, groups, selected, true, g) == Slice(messages, groups[|groups| - 1])
    decreases |groups| - g
  {
    MarkedSplits(messages, groups, selected, true, g);
    if g < |groups| - 1 {
      NewestKept(messages, groups, selected, g + 1);
    }
  }

  lemma {:induction false} OlderStartsBefore(messages: seq<ChatMessage>, groups: seq<Range>, start: nat, g: nat)
    requires Tiles(messages, groups, start) && g < |groups| - 1
    ensures groups[g].start < groups[g].end <= groups[|groups| - 1].start
    decreases |groups| - g
  {
    GroupSplits(messages, groups, start, g);
    if g + 1 < |groups| - 1 {
      OlderStartsBefore(messages, groups, start, g + 1);
    }
  }

  lemma {:induction false} NothingMoreIsPicked(tokens: seq<U64>, count: nat, selectedTokens: U64, olderBudget: nat)
    requires count <= |tokens| && selectedTokens > olderBudget
    ensures forall g: nat | g < count :: !Pick(tokens, count, selectedTokens, olderBudget)[g]
    decreases count
  {
    if count > 0 {
      NothingMoreIsPicked(tokens, count - 1, selectedTokens, olderBudget);
    }
  }

  lemma NothingOlderIsSelected(prefixTokens: U64, tokens: seq<U64>, newest: nat, olderBudget: nat)
    requires newest + 1 == |tokens| && olderBudget < MAX_U64 && prefixTokens + tokens[newest] > olderBudget
    ensures var selected := Selected(prefixTokens, tokens, olderBudget);
            forall g: nat | g < |tokens| :: selected[g] <==> g == newest
  {
    NothingMoreIsPicked(tokens, newest, SaturatingAdd(prefixTokens, tokens[newest]), olderBudget);
  }

  lemma OnlyNewestIsChosen(messages: seq<ChatMessage>, groups: seq<Range>, budget: U64)
    requires Cuts(messages, groups) && RequiredTokens(messages) > OlderBudget(budget)
    ensures OnlyNewest(groups, Chosen(messages, groups, budget))
  {
    RequiredIsNewest(messages, groups);
    NothingOlderIsSelected(Estimate(messages[..SystemPrefix(messages)]), GroupTokens(messages, groups), |groups| - 1,
        OlderBudget(budget));
  }

  lemma {:induction false} LoadOfNewest(prefixTokens: nat, tokens: seq<U64>, selected: seq<bool>, g: nat)
    requires |selected| == |tokens| && g < |tokens|
    requires forall i: nat | i < |tokens| :: selected[i] <==> i == |tokens| - 1
    ensures Load(prefixTokens, tokens, selected, g) == prefixTokens + tokens[|tokens| - 1]
    decreases |tokens| - g
  {
    if g < |tokens| - 1 {
      LoadOfNewest(prefixTokens, tokens, selected, g + 1);
    } else {
      assert Load(prefixTokens, tokens, selected, g + 1) == prefixTokens;
    }
  }

  /** Everything between the system prefix and the last request. */
  function Older(messages: seq<ChatMessage>): seq<ChatMessage>
    requires SystemPrefix(messages) < |messages|
  {
    messages[SystemPrefix(messages)..NewestStart(messages)]
  }

  lemma NewestAlone(messages: seq<ChatMessage>, groups: seq<Range>, selected: seq<bool>)
    requires Cuts(messages, groups) && Tiles(messages, groups, SystemPrefix(messages)) && OnlyNewest(groups, selected)
    ensures Marked(messages, groups, selected, false, 0) == Older(messages)
    ensures Marked(messages, groups, selected, true, 0) == messages[NewestStart(messages)..]
    ensures KeptLoad(messages, SystemPrefix(messages), groups, selected) == RequiredTokens(messages)
  {
    OlderOmitted(messages, groups, selected, SystemPrefix(messages), 0);
    NewestKept(messages, groups, selected, 0);
    NewestSlice(messages, groups);
    RequiredIsNewest(messages, groups);
    LoadOfNewest(Estimate(messages[..SystemPrefix(messages)]), GroupTokens(messages, groups), selected, 0);
  }

  // Whether the request fits.

  /** The budgets at which the request overflows and what must stay does not fit beside the reserve. */
  predicate IsTight(messages: seq<ChatMessage>, budget: U64) {
    Overflows(messages, budget) && RequiredTokens(messages) > OlderBudget(budget)
  }

  /**
   * The request at such a budget is the prefix, a summary of everything older than the last request, and that
   * request.
   */
  lemma TightRequest(messages: seq<ChatMessage>, budget: U64)
    requires IsTight(messages, budget) && Older(messages) != []
    ensures Project(messages, budget).messages
            == messages[..SystemPrefix(messages)] + [Compacted(Older(messages))] + messages[NewestStart(messages)..]
    ensures Project(messages, budget).estimatedTokens
            == Min(RequiredTokens(messages) + MessageTokens(Compacted(Older(messages))), MAX_U64)
    ensures Project(messages, budget).omittedMessages == |Older(messages)|
  {
    var groups := Groups(messages, SystemPrefix(messages));
    ProjectAssembles(messages, budget, groups);
    OnlyNewestIsChosen(messages, groups, budget);
    var selected := Chosen(messages, groups, budget);
    NewestAlone(messages, groups, selected);
    AssembledCostOf(messages, SystemPrefix(messages), groups, selected, Compacted(Older(messages)));
  }

  /**
   * When what must stay does not fit beside the reserve, the request fits if and only if there is something older than
   * the last request, and its summary fits beside what must stay.
   */
  lemma TightBudgetDecides(messages: seq<ChatMessage>, budget: U64)
    requires IsTight(messages, budget)
    ensures Project(messages, budget).estimatedTokens <= budget
       <==> && Older(messages) != []
            && RequiredTokens(messages) + MessageTokens(Compacted(Older(messages))) <= budget
  {
    if Older(messages) == [] {
      LoneRequest(messages, budget);
    } else {
      TightRequest(messages, budget);
    }
  }

  /** A conversation of one request has nothing to leave out, and is sent whole whatever the budget. */
  lemma LoneRequest(messages: seq<ChatMessage>, budget: U64)
    requires Overflows(messages, budget) && Older(messages) == []
    ensures Project(messages, budget) == Untouched(messages)
  {
    var groups := Groups(messages, SystemPrefix(messages));
    ProjectAssembles(messages, budget, groups);
    OneGroup(messages, groups);
    NewestAlone(messages, groups, Chosen(messages, groups, budget));
  }

  lemma OneGroup(messages: seq<ChatMessage>, groups: seq<Range>)
    requires Cuts(messages, groups) && Tiles(messages, groups, SystemPrefix(messages)) && Older(messages) == []
    ensures |groups| == 1
  {
    if |groups| > 1 {
      OlderStartsBefore(messages, groups, SystemPrefix(messages), 0);
    }
  }

  /**
   * One token decides: with a summary worth less than the reserve, the least budget that fits and the one below it
   * lead to the same request.
   */
  lemma OneTokenDecides(messages: seq<ChatMessage>, below: U64, budget: U64)
    requires Overflows(messages, budget) && Older(messages) != [] && budget == below + 1
    requires budget == RequiredTokens(messages) + MessageTokens(Compacted(Older(messages)))
    requires MessageTokens(Compacted(Older(messages))) < SUMMARY_RESERVE_TOKENS
    ensures Project(messages, budget) == Project(messages, below)
    ensures below < Project(messages, budget).estimatedTokens <= budget
  {
    RequiredIsSomething(messages);
    OverflowsBelow(messages, budget, below);
    TightRequest(messages, budget);
    TightRequest(messages, below);
  }
}
