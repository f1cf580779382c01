// The resumable bit-parallel matcher: a position automaton held in five machine words.

module Matcher {
  import opened Basics
  import opened BitWords
  import opened Glob

  const MAXIMUM_PATTERN_BYTES: nat := 256

  predicate ValidPattern(pattern: Bytes) {
    0 < |pattern| <= MAXIMUM_PATTERN_BYTES
  }

  type Pattern = p: Bytes | ValidPattern(p) witness [0]

  datatype MatcherError = InvalidPattern

  datatype Scanned = Scanned(words: Words, matched: bool)

  // What the loops compute, position by position.

  function CloseFrom(pattern: Pattern, words: Words, index: nat): Words
    requires index <= |pattern|
    decreases |pattern| - index
  {
    if index == |pattern| then words
    else
      CloseFrom(pattern,
                if pattern[index] == STAR && BitIsSet(words, index) then SetBit(words, index + 1) else words,
                index + 1)
  }

  function EpsilonClosure(pattern: Pattern, wildcard: bool, words: Words): Words {
    if wildcard then CloseFrom(pattern, words, 0) else words
  }

  function AdvanceOne(pattern: Pattern, wildcard: bool, states: Words, byte: Byte, next: Words, index: nat): Words
    requires index < |pattern|
  {
    if !BitIsSet(states, index) then next
    else if IsStar(wildcard, pattern[index]) then SetBit(next, index)
    else if Accepts(wildcard, pattern[index], byte) then SetBit(next, index + 1)
    else next
  }

  function AdvanceFrom(pattern: Pattern, wildcard: bool, states: Words, byte: Byte, next: Words, index: nat): Words
    requires index <= |pattern|
    decreases |pattern| - index
  {
    if index == |pattern| then next
    else AdvanceFrom(pattern, wildcard, states, byte,
        AdvanceOne(pattern, wildcard, states, byte, next, index), index + 1)
  }

  function StepByte(pattern: Pattern, wildcard: bool, states: Words, byte: Byte): Words {
    EpsilonClosure(pattern, wildcard, AdvanceFrom(pattern, wildcard, states, byte, SetBit(ZERO_WORDS, 0), 0))
  }

  function Scan(pattern: Pattern, wildcard: bool, states: Words, bytes: Bytes): Scanned
    decreases |bytes|
  {
    if bytes == [] then
      Scanned(states, BitIsSet(states, |pattern|))
    else
      var next := StepByte(pattern, wildcard, states, bytes[0]);
      if BitIsSet(next, |pattern|) then Scanned(next, true) else Scan(pattern, wildcard, next, bytes[1..])
  }

  function Feed(pattern: Bytes, wildcard: bool, states: Words, bytes: Bytes): Result<Scanned, MatcherError> {
    if !ValidPattern(pattern) then Err(InvalidPattern)
    else Ok(Scan(pattern, wildcard, EpsilonClosure(pattern, wildcard, SetBit(states, 0)), bytes))
  }

  // The loops themselves, over words changed in place.

  method SetBitInPlace(states: array<bv64>, index: nat)
    requires states.Length == PATTERN_WORDS && index < POSITIONS
    modifies states
    ensures states[..] == SetBit(old(states[..]), index)
  {
    states[index / 64] := states[index / 64] | Mask(index % 64);
  }

  method CloseInPlace(pattern: Pattern, wildcard: bool, states: array<bv64>)
    requires states.Length == PATTERN_WORDS
    modifies states
    ensures states[..] == EpsilonClosure(pattern, wildcard, old(states[..]))
  {
    if !wildcard {
      return;
    }
    for index := 0 to |pattern|
      invariant CloseFrom(pattern, states[..], index) == CloseFrom(pattern, old(states[..]), 0)
    {
      if pattern[index] == STAR && BitIsSet(states[..], index) {
        SetBitInPlace(states, index + 1);
      }
    }
  }

  /** The transition on one byte: fills `next` from the positions live in `states`. */
  method AdvanceOneInPlace(pattern: Pattern, wildcard: bool, states: array<bv64>, byte: Byte,
          next: array<bv64>, index: nat)
    requires states.Length == next.Length == PATTERN_WORDS && states != next && index < |pattern|
    modifies next
    ensures next[..] == AdvanceOne(pattern, wildcard, states[..], byte, old(next[..]), index)
  {
    if BitIsSet(states[..], index) {
      if wildcard && pattern[index] == STAR {
        SetBitInPlace(next, index);
      } else if pattern[index] == byte || (wildcard && pattern[index] == QUESTION) {
        SetBitInPlace(next, index + 1);
      }
    }
  }

  method AdvanceInPlace(pattern: Pattern, wildcard: bool, states: array<bv64>, byte: Byte, next: array<bv64>)
    requires states.Length == next.Length == PATTERN_WORDS && states != next
    modifies next
    ensures next[..] == AdvanceFrom(pattern, wildcard, states[..], byte, old(next[..]), 0)
  {
    for index := 0 to |pattern|
      invariant AdvanceFrom(pattern, wildcard, states[..], byte, next[..], index)
             == AdvanceFrom(pattern, wildcard, states[..], byte, old(next[..]), 0)
    {
      AdvanceOneInPlace(pattern, wildcard, states, byte, next, index);
    }
  }

  /** Replaces `states` by its successor on one byte. */
  method StepInPlace(pattern: Pattern, wildcard: bool, states: array<bv64>, byte: Byte)
    requires states.Length == PATTERN_WORDS
    modifies states
    ensures states[..] == StepByte(pattern, wildcard, old(states[..]), byte)
  {
    var next := new bv64[PATTERN_WORDS](_ => 0);
    assert next[..] == ZERO_WORDS;
    SetBitInPlace(next, 0);
    AdvanceInPlace(pattern, wildcard, states, byte, next);
    CloseInPlace(pattern, wildcard, next);
    forall word | 0 <= word < PATTERN_WORDS {
      states[word] := next[word];
    }
    assert states[..] == next[..];
  }

  /** Feeds one chunk. Returns at the first match, leaving the rest of the chunk unread. */
  method PatternFeed(pattern: Bytes, wildcard: bool, states: array<bv64>, bytes: Bytes)
    returns (result: Result<bool, MatcherError>)
    requires states.Length == PATTERN_WORDS
    modifies states
    ensures match Feed(pattern, wildcard, old(states[..]), bytes)
            case Err(error) => result == Err(error) && states[..] == old(states[..])
            case Ok(scanned) => result == Ok(scanned.matched) && states[..] == scanned.words
  {
    if |pattern| == 0 || |pattern| > MAXIMUM_PATTERN_BYTES {
      return Err(InvalidPattern);
    }
    SetBitInPlace(states, 0);
    CloseInPlace(pattern, wildcard, states);
    ghost var seeded: Words := states[..];
    for read := 0 to |bytes|
      invariant Scan(pattern, wildcard, states[..], bytes[read..]) == Scan(pattern, wildcard, seeded, bytes)
    {
      assert bytes[read..][1..] == bytes[read + 1..];
      StepInPlace(pattern, wildcard, states, bytes[read]);
      if BitIsSet(states[..], |pattern|) {
        return Ok(true);
      }
    }
    return Ok(BitIsSet(states[..], |pattern|));
  }

  /** One search of a whole text, as for a screen snapshot. */
  function PatternMatches(pattern: Bytes, wildcard: bool, text: Bytes): Result<bool, MatcherError> {
    match Feed(pattern, wildcard, ZERO_WORDS, text)
    case Err(error) => Err(error)
    case Ok(scanned) => Ok(scanned.matched)
  }
}
