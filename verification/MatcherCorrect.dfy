// The bitset matcher finds exactly the occurrences of the pattern, however the input is cut up.

module MatcherCorrect {
  import opened Basics
  import opened BitWords
  import opened Glob
  import opened Matcher

  /** How much of the pattern a live position stands for: a position before `*` includes the `*`. */
  function Prefix(pattern: Pattern, wildcard: bool, position: nat): Bytes
    requires position <= |pattern|
  {
    pattern[..if position < |pattern| && IsStar(wildcard, pattern[position]) then position + 1 else position]
  }

  /** A position is live after `text` when some suffix of `text` matches that much of the pattern. */
  ghost predicate Live(pattern: Pattern, wildcard: bool, text: Bytes, position: nat) {
    position <= |pattern| && EndsWith(Prefix(pattern, wildcard, position), wildcard, text)
  }

  ghost function LiveSet(pattern: Pattern, wildcard: bool, text: Bytes): set<nat> {
    set position: nat | position <= |pattern| && Live(pattern, wildcard, text, position)
  }

  /** The words hold exactly the positions live after `text`. */
  ghost predicate Tracks(pattern: Pattern, wildcard: bool, words: Words, text: Bytes) {
    Bits(words) == LiveSet(pattern, wildcard, text)
  }

  predicate StarBefore(pattern: Pattern, wildcard: bool, position: nat) {
    0 < position <= |pattern| && IsStar(wildcard, pattern[position - 1])
  }

  // Liveness obeys the automaton's own recurrence.

  lemma EmptyPrefixEndsAnywhere(wildcard: bool, text: Bytes)
    ensures EndsWith([], wildcard, text)
  {
    assert text[|text|..] == [];
  }

  lemma StarIsUsed(pattern: Bytes, wildcard: bool, text: Bytes)
    requires pattern != [] && IsStar(wildcard, pattern[|pattern| - 1]) && EndsWith(pattern, wildcard, text)
    ensures var n, k := |pattern| - 1, |text| - 1;
            EndsWith(pattern[..n], wildcard, text) || (k >= 0 && EndsWith(pattern, wildcard, text[..k]))
  {
    var n, k := |pattern| - 1, |text| - 1;
    var from: nat :| from <= |text| && Matches(pattern, wildcard, text[from..]);
    if from <= k {
      assert text[from..][..k - from] == text[..k][from..];
    } else {
      assert text[from..] == [] && Matches(pattern[..n], wildcard, text[from..]);
    }
  }

  lemma StarTakesOneMore(pattern: Bytes, wildcard: bool, text: Bytes)
    requires pattern != [] && IsStar(wildcard, pattern[|pattern| - 1])
    requires text != [] && EndsWith(pattern, wildcard, text[..|text| - 1])
    ensures EndsWith(pattern, wildcard, text)
  {
    var k := |text| - 1;
    var from: nat :| from <= k && Matches(pattern, wildcard, text[..k][from..]);
    assert text[from..][..k - from] == text[..k][from..];
    assert Matches(pattern, wildcard, text[from..]);
  }

  lemma StarTakesNothing(pattern: Bytes, wildcard: bool, text: Bytes)
    requires pattern != [] && IsStar(wildcard, pattern[|pattern| - 1])
             && EndsWith(pattern[..|pattern| - 1], wildcard, text)
    ensures EndsWith(pattern, wildcard, text)
  {
    var from: nat :| from <= |text| && Matches(pattern[..|pattern| - 1], wildcard, text[from..]);
    assert Matches(pattern, wildcard, text[from..]);
  }

  /** Whether a text ends with a match is decided by the last pattern byte and the last text byte. */
  lemma EndsWithStar(pattern: Bytes, wildcard: bool, text: Bytes)
    requires pattern != [] && IsStar(wildcard, pattern[|pattern| - 1])
    ensures var n, k := |pattern| - 1, |text| - 1;
            EndsWith(pattern, wildcard, text) <==> EndsWith(pattern[..n], wildcard, text)
                                                   || (k >= 0 && EndsWith(pattern, wildcard, text[..k]))
  {
    if EndsWith(pattern, wildcard, text) {
      StarIsUsed(pattern, wildcard, text);
    } else if EndsWith(pattern[..|pattern| - 1], wildcard, text) {
      StarTakesNothing(pattern, wildcard, text);
    } else if text != [] && EndsWith(pattern, wildcard, text[..|text| - 1]) {
      StarTakesOneMore(pattern, wildcard, text);
    }
  }

  lemma EndsWithByte(pattern: Bytes, wildcard: bool, text: Bytes)
    requires pattern != [] && !IsStar(wildcard, pattern[|pattern| - 1])
    ensures var n, k := |pattern| - 1, |text| - 1;
            EndsWith(pattern, wildcard, text) <==> k >= 0 && Accepts(wildcard, pattern[n], text[k])
                                                   && EndsWith(pattern[..n], wildcard, text[..k])
  {
    var n, k := |pattern| - 1, |text| - 1;
    assert text[|text|..] == [] && forall from: nat | from <= k :: text[from..][..k - from] == text[..k][from..];
    if EndsWith(pattern, wildcard, text) {
      var from: nat :| from <= |text| && Matches(pattern, wildcard, text[from..]);
      assert from <= k ==> text[from..][k - from] == text[k];
    }
    if k >= 0 && EndsWith(pattern[..n], wildcard, text[..k]) {
      var from: nat :| from <= k && Matches(pattern[..n], wildcard, text[..k][from..]);
      assert text[from..][k - from] == text[k];
      assert Accepts(wildcard, pattern[n], text[k]) ==> Matches(pattern, wildcard, text[from..]);
    }
  }

  lemma EndsWithLastToken(pattern: Bytes, wildcard: bool, text: Bytes)
    requires pattern != []
    ensures var n, k := |pattern| - 1, |text| - 1;
            EndsWith(pattern, wildcard, text) <==>
            if IsStar(wildcard, pattern[n]) then
              EndsWith(pattern[..n], wildcard, text) || (k >= 0 && EndsWith(pattern, wildcard, text[..k]))
            else
              k >= 0 && Accepts(wildcard, pattern[n], text[k]) && EndsWith(pattern[..n], wildcard, text[..k])
  {
    if IsStar(wildcard, pattern[|pattern| - 1]) {
      EndsWithStar(pattern, wildcard, text);
    } else {
      EndsWithByte(pattern, wildcard, text);
    }
  }

  lemma LiveAtStart(pattern: Pattern, wildcard: bool, position: nat)
    requires position <= |pattern|
    ensures Live(pattern, wildcard, [], position) <==>
            position == 0 || (StarBefore(pattern, wildcard, position) && Live(pattern, wildcard, [], position - 1))
  {
    EmptyPrefixEndsAnywhere(wildcard, []);
    if position > 0 {
      EndsWithLastToken(pattern[..position], wildcard, []);
      assert pattern[..position][..position - 1] == pattern[..position - 1];
    }
    if position < |pattern| {
      EndsWithLastToken(pattern[..position + 1], wildcard, []);
      assert pattern[..position + 1][..position] == pattern[..position];
    }
  }

  lemma LiveAfterByte(pattern: Pattern, wildcard: bool, text: Bytes, byte: Byte, position: nat)
    requires position <= |pattern|
    ensures Live(pattern, wildcard, text + [byte], position) <==>
            || position == 0
            || Moved(pattern, wildcard, LiveSet(pattern, wildcard, text), byte, 0, position)
            || (StarBefore(pattern, wildcard, position) && Live(pattern, wildcard, text + [byte], position - 1))
  {
    var longer := text + [byte];
    assert longer[..|longer| - 1] == text;
    EmptyPrefixEndsAnywhere(wildcard, longer);
    if position > 0 {
      EndsWithLastToken(pattern[..position], wildcard, longer);
      assert pattern[..position][..position - 1] == pattern[..position - 1];
    }
    if position < |pattern| {
      EndsWithLastToken(pattern[..position + 1], wildcard, longer);
      assert pattern[..position + 1][..position] == pattern[..position];
    }
  }

  lemma LiveIsClosed(pattern: Pattern, wildcard: bool, text: Bytes, position: nat)
    requires StarBefore(pattern, wildcard, position) && Live(pattern, wildcard, text, position - 1)
    ensures Live(pattern, wildcard, text, position)
  {
    if position < |pattern| {
      EndsWithLastToken(pattern[..position + 1], wildcard, text);
      assert pattern[..position + 1][..position] == pattern[..position];
    }
  }

  // The word operations compute that recurrence.

  /** Reached from a state at `index` or later by reading `byte`, before the closure. */
  predicate Moved(pattern: Pattern, wildcard: bool, states: set<nat>, byte: Byte, index: nat, position: nat) {
    || (index <= position < |pattern| && position in states && IsStar(wildcard, pattern[position]))
    || (index < position <= |pattern| && position - 1 in states && !IsStar(wildcard, pattern[position - 1])
        && Accepts(wildcard, pattern[position - 1], byte))
  }

  lemma AdvanceOneBits(pattern: Pattern, wildcard: bool, states: Words, byte: Byte, next: Words, index: nat)
    requires index < |pattern|
    ensures Bits(AdvanceOne(pattern, wildcard, states, byte, next, index)) == Bits(next) +
            if index !in Bits(states) then {}
            else if IsStar(wildcard, pattern[index]) then {index}
            else if Accepts(wildcard, pattern[index], byte) then {index + 1}
            else {}
  {
    SetBitAdds(next, index);
    SetBitAdds(next, index + 1);
  }

  /** What the position `index` alone contributes, and what the later ones do. */
  lemma MovedStep(pattern: Pattern, wildcard: bool, states: set<nat>, byte: Byte, index: nat, position: nat)
    requires index < |pattern|
    ensures Moved(pattern, wildcard, states, byte, index, position) <==>
              || Moved(pattern, wildcard, states, byte, index + 1, position)
              || (index in states && IsStar(wildcard, pattern[index]) && position == index)
              || (index in states && !IsStar(wildcard, pattern[index]) && Accepts(wildcard, pattern[index], byte)
                  && position == index + 1)
  {
  }

  lemma {:induction false} AdvanceBits(pattern: Pattern, wildcard: bool, states: Words, byte: Byte,
          next: Words, index: nat)
    requires index <= |pattern|
    ensures forall position: nat :: position in Bits(AdvanceFrom(pattern, wildcard, states, byte, next, index)) <==>
            position in Bits(next) || Moved(pattern, wildcard, Bits(states), byte, index, position)
    decreases |pattern| - index
  {
    if index < |pattern| {
      var after := AdvanceOne(pattern, wildcard, states, byte, next, index);
      AdvanceOneBits(pattern, wildcard, states, byte, next, index);
      AdvanceBits(pattern, wildcard, states, byte, after, index + 1);
      var last := Bits(AdvanceFrom(pattern, wildcard, states, byte, after, index + 1));
      forall position: nat
        ensures position in last <==> position in Bits(next)
                                      || Moved(pattern, wildcard, Bits(states), byte, index, position)
      {
        MovedStep(pattern, wildcard, Bits(states), byte, index, position);
      }
    }
  }

  /** `target` is the least set holding `seeds` and closed under stepping over a `*`. */
  ghost predicate ClosureOf(pattern: Pattern, wildcard: bool, seeds: set<nat>, target: set<nat>) {
    forall position: nat :: ClosedAt(pattern, wildcard, seeds, target, position)
  }

  predicate ClosedAt(pattern: Pattern, wildcard: bool, seeds: set<nat>, target: set<nat>, position: nat) {
    position in target <==> position in seeds || (StarBefore(pattern, wildcard, position) && position - 1 in target)
  }

  lemma ClosesOneMore(pattern: Pattern, words: Words, seeds: set<nat>, target: set<nat>, index: nat,
          next: Words, after: nat)
    requires index < |pattern| && after == index + 1
    requires next == if pattern[index] == STAR && BitIsSet(words, index) then SetBit(words, after) else words
    requires ClosureOf(pattern, true, seeds, target)
    requires forall position: nat :: ClosedUpTo(words, seeds, target, index, position)
    ensures forall position: nat :: ClosedUpTo(next, seeds, target, after, position)
  {
    SetBitAdds(words, after);
    assert ClosedUpTo(words, seeds, target, index, index) && ClosedAt(pattern, true, seeds, target, after);
    forall position: nat
      ensures ClosedUpTo(next, seeds, target, after, position)
    {
      assert ClosedUpTo(words, seeds, target, index, position);
    }
  }

  /** One pass from left to right reaches the whole closure. */
  lemma {:induction false} OnePassCloses(pattern: Pattern, words: Words, seeds: set<nat>, target: set<nat>, index: nat)
    requires index <= |pattern|
    requires ClosureOf(pattern, true, seeds, target)
    requires forall position: nat :: ClosedUpTo(words, seeds, target, index, position)
    ensures Bits(CloseFrom(pattern, words, index)) == target
    decreases |pattern| - index
  {
    if index < |pattern| {
      var next := if pattern[index] == STAR && BitIsSet(words, index) then SetBit(words, index + 1) else words;
      ClosesOneMore(pattern, words, seeds, target, index, next, index + 1);
      OnePassCloses(pattern, next, seeds, target, index + 1);
    } else {
      forall position: nat | position in Bits(words) + target
        ensures position in Bits(words) && position in target
      {
        assert ClosedUpTo(words, seeds, target, index, position) && ClosedAt(pattern, true, seeds, target, position);
      }
    }
  }

  predicate ClosedUpTo(words: Words, seeds: set<nat>, target: set<nat>, index: nat, position: nat) {
    position in Bits(words) <==> if position <= index then position in target else position in seeds
  }

  lemma EpsilonClosureBits(pattern: Pattern, wildcard: bool, words: Words, target: set<nat>)
    requires ClosureOf(pattern, wildcard, Bits(words), target)
    ensures Bits(EpsilonClosure(pattern, wildcard, words)) == target
  {
    if wildcard {
      assert ClosedAt(pattern, wildcard, Bits(words), target, 0);
      OnePassCloses(pattern, words, Bits(words), target, 0);
    } else {
      forall position: nat | position in Bits(words) + target
        ensures position in Bits(words) && position in target
      {
        assert ClosedAt(pattern, wildcard, Bits(words), target, position);
      }
    }
  }

  /** With the start seeded, what is live is exactly the closure. */
  lemma SeedsClose(pattern: Pattern, wildcard: bool, bits: set<nat>, fed: Bytes)
    requires bits == LiveSet(pattern, wildcard, fed) || (bits == {} && fed == [])
    ensures ClosureOf(pattern, wildcard, bits + {0}, LiveSet(pattern, wildcard, fed))
  {
    forall position: nat
      ensures ClosedAt(pattern, wildcard, bits + {0}, LiveSet(pattern, wildcard, fed), position)
    {
      if position <= |pattern| {
        SeedCloses(pattern, wildcard, fed, position);
      }
    }
  }

  /** The start is always live, liveness passes a `*`, and before any output nothing else is live. */
  lemma SeedCloses(pattern: Pattern, wildcard: bool, fed: Bytes, position: nat)
    requires position <= |pattern|
    ensures position == 0 ==> Live(pattern, wildcard, fed, position)
    ensures StarBefore(pattern, wildcard, position) && Live(pattern, wildcard, fed, position - 1)
            ==> Live(pattern, wildcard, fed, position)
    ensures fed == [] && Live(pattern, wildcard, fed, position) ==>
              position == 0 || (StarBefore(pattern, wildcard, position) && Live(pattern, wildcard, fed, position - 1))
  {
    if fed == [] {
      LiveAtStart(pattern, wildcard, position);
    } else if position == 0 {
      StartIsLive(pattern, wildcard, fed);
    }
    if StarBefore(pattern, wildcard, position) && Live(pattern, wildcard, fed, position - 1) {
      LiveIsClosed(pattern, wildcard, fed, position);
    }
  }

  lemma SeedTracks(pattern: Pattern, wildcard: bool, words: Words, fed: Bytes)
    requires Tracks(pattern, wildcard, words, fed) || (words == ZERO_WORDS && fed == [])
    ensures Tracks(pattern, wildcard, EpsilonClosure(pattern, wildcard, SetBit(words, 0)), fed)
  {
    ZeroIsEmpty();
    SeededTracks(pattern, wildcard, words, fed);
  }

  lemma SeededTracks(pattern: Pattern, wildcard: bool, words: Words, fed: Bytes)
    requires Bits(words) == LiveSet(pattern, wildcard, fed) || (Bits(words) == {} && fed == [])
    ensures Tracks(pattern, wildcard, EpsilonClosure(pattern, wildcard, SetBit(words, 0)), fed)
  {
    SetBitAdds(words, 0);
    SeedsClose(pattern, wildcard, Bits(words), fed);
    EpsilonClosureBits(pattern, wildcard, SetBit(words, 0), LiveSet(pattern, wildcard, fed));
  }

  lemma StartIsLive(pattern: Pattern, wildcard: bool, text: Bytes)
    ensures Live(pattern, wildcard, text, 0)
  {
    if text == [] {
      LiveAtStart(pattern, wildcard, 0);
    } else {
      assert text == text[..|text| - 1] + [text[|text| - 1]];
      LiveAfterByte(pattern, wildcard, text[..|text| - 1], text[|text| - 1], 0);
    }
  }

  lemma StepTracks(pattern: Pattern, wildcard: bool, words: Words, fed: Bytes, byte: Byte)
    requires Tracks(pattern, wildcard, words, fed)
    ensures Tracks(pattern, wildcard, StepByte(pattern, wildcard, words, byte), fed + [byte])
  {
    SetBitAdds(ZERO_WORDS, 0);
    ZeroIsEmpty();
    AdvanceBits(pattern, wildcard, words, byte, SetBit(ZERO_WORDS, 0), 0);
    var advanced := AdvanceFrom(pattern, wildcard, words, byte, SetBit(ZERO_WORDS, 0), 0);
    forall position: nat
      ensures ClosedAt(pattern, wildcard, Bits(advanced), LiveSet(pattern, wildcard, fed + [byte]), position)
    {
      if position <= |pattern| {
        LiveAfterByte(pattern, wildcard, fed, byte, position);
      }
    }
    EpsilonClosureBits(pattern, wildcard, advanced, LiveSet(pattern, wildcard, fed + [byte]));
  }

  /** The last position is live exactly when the text ends with a match. */
  lemma LastPositionAccepts(pattern: Pattern, wildcard: bool, words: Words, fed: Bytes)
    requires Tracks(pattern, wildcard, words, fed)
    ensures BitIsSet(words, |pattern|) <==> EndsWith(pattern, wildcard, fed)
  {
    assert pattern[..|pattern|] == pattern;
    assert BitIsSet(words, |pattern|) <==> |pattern| in Bits(words);
  }

  // Occurrences and their ends.

  lemma OccursAtAnEnd(pattern: Bytes, wildcard: bool, text: Bytes)
    ensures Occurs(pattern, wildcard, text)
       <==> exists end: nat :: end <= |text| && EndsWith(pattern, wildcard, text[..end])
  {
    assert forall from: nat, to: nat | from <= to <= |text| :: text[..to][from..] == text[from..to];
    if Occurs(pattern, wildcard, text) {
      var from: nat, to: nat :| from <= to <= |text| && Matches(pattern, wildcard, text[from..to]);
      assert EndsWith(pattern, wildcard, text[..to]);
    }
  }

  lemma OccurrencePersists(pattern: Bytes, wildcard: bool, text: Bytes, more: Bytes)
    requires Occurs(pattern, wildcard, text)
    ensures Occurs(pattern, wildcard, text + more)
  {
    var from: nat, to: nat :| from <= to <= |text| && Matches(pattern, wildcard, text[from..to]);
    assert (text + more)[from..to] == text[from..to];
  }

  /** A new byte adds an occurrence exactly when a match ends on it. */
  lemma OccursAfterByte(pattern: Bytes, wildcard: bool, text: Bytes, byte: Byte)
    ensures Occurs(pattern, wildcard, text + [byte]) <==>
            Occurs(pattern, wildcard, text) || EndsWith(pattern, wildcard, text + [byte])
  {
    var longer := text + [byte];
    OccursAtAnEnd(pattern, wildcard, longer);
    OccursAtAnEnd(pattern, wildcard, text);
    assert longer[..|longer|] == longer;
    assert forall end: nat | end <= |text| :: longer[..end] == text[..end];
  }

  lemma {:induction false} ScanFinds(pattern: Pattern, wildcard: bool, words: Words, fed: Bytes, bytes: Bytes)
    requires Tracks(pattern, wildcard, words, fed)
    requires Occurs(pattern, wildcard, fed) <==> EndsWith(pattern, wildcard, fed)
    requires bytes != [] && Occurs(pattern, wildcard, fed) ==> EndsWith(pattern, wildcard, fed + [bytes[0]])
    ensures var scanned := Scan(pattern, wildcard, words, bytes);
            && (scanned.matched <==> Occurs(pattern, wildcard, fed + bytes))
            && (!scanned.matched ==> Tracks(pattern, wildcard, scanned.words, fed + bytes))
    decreases |bytes|
  {
    if bytes == [] {
      assert fed + bytes == fed;
      LastPositionAccepts(pattern, wildcard, words, fed);
    } else {
      var next, read := StepByte(pattern, wildcard, words, bytes[0]), fed + [bytes[0]];
      StepTracks(pattern, wildcard, words, fed, bytes[0]);
      LastPositionAccepts(pattern, wildcard, next, read);
      OccursAfterByte(pattern, wildcard, fed, bytes[0]);
      assert fed + bytes == read + bytes[1..];
      if BitIsSet(next, |pattern|) {
        OccurrencePersists(pattern, wildcard, read, bytes[1..]);
      } else {
        ScanFinds(pattern, wildcard, next, read, bytes[1..]);
      }
    }
  }

  /** Only a pattern of stars occurs in the empty text, and such a pattern ends everywhere. */
  lemma EmptyOccurrence(pattern: Bytes, wildcard: bool, text: Bytes)
    requires Occurs(pattern, wildcard, [])
    ensures EndsWith(pattern, wildcard, text)
  {
    assert text[|text|..] == [];
  }

  /** Words that a run of earlier, unsuccessful feeds can leave behind. */
  ghost predicate FedSoFar(pattern: Pattern, wildcard: bool, words: Words, fed: Bytes) {
    || (words == ZERO_WORDS && fed == [])
    || (Tracks(pattern, wildcard, words, fed) && (!Occurs(pattern, wildcard, fed) || fed == []))
  }

  /** One feed reports a match exactly when the pattern occurs in everything fed so far. */
  lemma FeedFinds(pattern: Pattern, wildcard: bool, words: Words, fed: Bytes, bytes: Bytes)
    requires FedSoFar(pattern, wildcard, words, fed)
    ensures var feed := Feed(pattern, wildcard, words, bytes);
            && feed.Ok?
            && (feed.value.matched <==> Occurs(pattern, wildcard, fed + bytes))
            && (!feed.value.matched ==> FedSoFar(pattern, wildcard, feed.value.words, fed + bytes))
  {
    SeedTracks(pattern, wildcard, words, fed);
    if Occurs(pattern, wildcard, fed) {
      assert fed == [];
      EmptyOccurrence(pattern, wildcard, fed);
      if bytes != [] {
        EmptyOccurrence(pattern, wildcard, fed + [bytes[0]]);
      }
    } else {
      OccursAtAnEnd(pattern, wildcard, fed);
      assert fed[..|fed|] == fed;
    }
    ScanFinds(pattern, wildcard, EpsilonClosure(pattern, wildcard, SetBit(words, 0)), fed, bytes);
  }

  /** Matching a whole text at once, from cleared words. */
  lemma SearchFinds(pattern: Pattern, wildcard: bool, text: Bytes)
    ensures PatternMatches(pattern, wildcard, text) == Ok(Occurs(pattern, wildcard, text))
  {
    FeedFinds(pattern, wildcard, ZERO_WORDS, [], text);
    assert [] + text == text;
  }

  lemma LiteralSearch(pattern: Pattern, text: Bytes)
    ensures PatternMatches(pattern, false, text)
            == Ok(exists from: nat, to: nat :: from <= to <= |text| && text[from..to] == pattern)
  {
    SearchFinds(pattern, false, text);
    forall from: nat, to: nat | from <= to <= |text|
      ensures Matches(pattern, false, text[from..to]) <==> text[from..to] == pattern
    {
      LiteralIsEquality(pattern, text[from..to]);
    }
  }

  // Chunks.

  function Flatten(chunks: seq<Bytes>): Bytes {
    if chunks == [] then [] else chunks[0] + Flatten(chunks[1..])
  }

  /** The index of the first feed that reports a match, with the words saved between feeds. */
  function FirstHit(pattern: Pattern, wildcard: bool, words: Words, chunks: seq<Bytes>): Option<nat>
    decreases |chunks|
  {
    if chunks == [] then None
    else
      var scanned := Feed(pattern, wildcard, words, chunks[0]).value;
      if scanned.matched then Some(0)
      else match FirstHit(pattern, wildcard, scanned.words, chunks[1..])
        case None => None
        case Some(later) => Some(later + 1)
  }

  lemma FlattenTail(fed: Bytes, chunks: seq<Bytes>, count: nat)
    requires 0 < count <= |chunks|
    ensures fed + Flatten(chunks[..count]) == fed + chunks[0] + Flatten(chunks[1..][..count - 1])
  {
    assert chunks[..count][1..] == chunks[1..][..count - 1];
  }

  /** The hit is the first chunk, after the text already fed, by whose end the pattern has occurred. */
  ghost predicate HitIsRight(pattern: Pattern, wildcard: bool, fed: Bytes, chunks: seq<Bytes>, hit: Option<nat>) {
    match hit
    case None => chunks != [] ==> !Occurs(pattern, wildcard, fed + Flatten(chunks))
    case Some(hit) =>
      && hit < |chunks|
      && Occurs(pattern, wildcard, fed + Flatten(chunks[..hit + 1]))
      && (hit > 0 ==> !Occurs(pattern, wildcard, fed + Flatten(chunks[..hit])))
  }

  lemma HitShifts(pattern: Pattern, wildcard: bool, fed: Bytes, chunks: seq<Bytes>, hit: Option<nat>)
    requires chunks != [] && !Occurs(pattern, wildcard, fed + chunks[0])
    requires HitIsRight(pattern, wildcard, fed + chunks[0], chunks[1..], hit)
    ensures HitIsRight(pattern, wildcard, fed, chunks, if hit.Some? then Some(hit.value + 1) else None)
  {
    var read, rest := fed + chunks[0], chunks[1..];
    FlattenTail(fed, chunks, 1);
    assert read + [] == read;
    match hit {
      case None =>
        FlattenTail(fed, chunks, |chunks|);
        assert chunks[..|chunks|] == chunks && rest[..|chunks| - 1] == rest;
      case Some(later) =>
        FlattenTail(fed, chunks, later + 2);
        FlattenTail(fed, chunks, later + 1);
    }
  }

  lemma {:induction false} FirstHitFinds(pattern: Pattern, wildcard: bool, words: Words, fed: Bytes, chunks: seq<Bytes>)
    requires FedSoFar(pattern, wildcard, words, fed)
    ensures HitIsRight(pattern, wildcard, fed, chunks, FirstHit(pattern, wildcard, words, chunks))
    decreases |chunks|
  {
    if chunks != [] {
      FeedFinds(pattern, wildcard, words, fed, chunks[0]);
      var scanned := Feed(pattern, wildcard, words, chunks[0]).value;
      if scanned.matched {
        FlattenTail(fed, chunks, 1);
        assert fed + chunks[0] + [] == fed + chunks[0];
      } else {
        FirstHitFinds(pattern, wildcard, scanned.words, fed + chunks[0], chunks[1..]);
        HitShifts(pattern, wildcard, fed, chunks, FirstHit(pattern, wildcard, scanned.words, chunks[1..]));
      }
    }
  }

  /** Cutting the input into chunks changes neither whether nor, up to the chunk, where a match is reported. */
  lemma ChunkingIsIrrelevant(pattern: Pattern, wildcard: bool, chunks: seq<Bytes>)
    requires chunks != []
    ensures FirstHit(pattern, wildcard, ZERO_WORDS, chunks).Some?
       <==> PatternMatches(pattern, wildcard, Flatten(chunks)) == Ok(true)
    ensures match FirstHit(pattern, wildcard, ZERO_WORDS, chunks)
            case None => !Occurs(pattern, wildcard, Flatten(chunks))
            case Some(hit) =>
              && hit < |chunks|
              && Occurs(pattern, wildcard, Flatten(chunks[..hit + 1]))
              && forall earlier: nat | 0 < earlier <= hit :: !Occurs(pattern, wildcard, Flatten(chunks[..earlier]))
  {
    FirstHitFinds(pattern, wildcard, ZERO_WORDS, [], chunks);
    SearchFinds(pattern, wildcard, Flatten(chunks));
    match FirstHit(pattern, wildcard, ZERO_WORDS, chunks)
    case None =>
      assert [] + Flatten(chunks) == Flatten(chunks);
    case Some(hit) =>
      assert [] + Flatten(chunks[..hit + 1]) == Flatten(chunks[..hit + 1]);
      assert [] + Flatten(chunks[..hit]) == Flatten(chunks[..hit]);
      StillOccurs(pattern, wildcard, chunks, hit + 1, |chunks|);
      assert chunks[..|chunks|] == chunks;
      NotBefore(pattern, wildcard, chunks, hit);
  }

  lemma NotBefore(pattern: Pattern, wildcard: bool, chunks: seq<Bytes>, hit: nat)
    requires hit <= |chunks| && (hit > 0 ==> !Occurs(pattern, wildcard, Flatten(chunks[..hit])))
    ensures forall earlier: nat | 0 < earlier <= hit :: !Occurs(pattern, wildcard, Flatten(chunks[..earlier]))
  {
    forall earlier: nat | 0 < earlier <= hit
      ensures !Occurs(pattern, wildcard, Flatten(chunks[..earlier]))
    {
      StillOccurs(pattern, wildcard, chunks, earlier, hit);
    }
  }

  lemma StillOccurs(pattern: Pattern, wildcard: bool, chunks: seq<Bytes>, earlier: nat, last: nat)
    requires earlier <= last <= |chunks|
    ensures Occurs(pattern, wildcard, Flatten(chunks[..earlier])) ==> Occurs(pattern, wildcard, Flatten(chunks[..last]))
  {
    if Occurs(pattern, wildcard, Flatten(chunks[..earlier])) {
      assert chunks[..last] == chunks[..earlier] + chunks[earlier..last];
      FlattenConcat(chunks[..earlier], chunks[earlier..last]);
      OccurrencePersists(pattern, wildcard, Flatten(chunks[..earlier]), Flatten(chunks[earlier..last]));
    }
  }

  lemma {:induction false} FlattenConcat(left: seq<Bytes>, right: seq<Bytes>)
    ensures Flatten(left + right) == Flatten(left) + Flatten(right)
  {
    if left == [] {
      assert left + right == right;
    } else {
      assert (left + right)[1..] == left[1..] + right;
      FlattenConcat(left[1..], right);
    }
  }
}
