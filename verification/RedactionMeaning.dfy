// What the recognisers of assignments and tokens recognise, said without their scans.

module RedactionMeaning {
  import opened Basics
  import opened Redaction

  // Runs.

  /** `text[from..end]` is the whole run from `from` on of bytes that satisfy `p`. */
  predicate IsRun(text: Bytes, from: nat, end: nat, p: Byte -> bool) {
    && from <= end <= |text|
    && (forall i: nat | from <= i < end :: p(text[i]))
    && (end < |text| ==> !p(text[end]))
  }

  lemma RunEndIsRun(text: Bytes, from: nat, p: Byte -> bool)
    requires from <= |text|
    ensures IsRun(text, from, RunEnd(text, from, p), p)
    ensures forall end: nat | IsRun(text, from, end, p) :: end == RunEnd(text, from, p)
  {
  }

  // Quoted values.

  /** The backslashes right before `at`, as far back as `from`, begin at `first`. */
  predicate SlashRun(text: Bytes, from: nat, first: nat, at: nat) {
    && from <= first <= at <= |text|
    && (forall i: nat | first <= i < at :: text[i] == BACKSLASH)
    && (first > from ==> text[first - 1] != BACKSLASH)
  }

  /** An odd number of backslashes stands right before `at`. */
  ghost predicate Escaped(text: Bytes, from: nat, at: nat) {
    exists first: nat :: SlashRun(text, from, first, at) && (at - first) % 2 == 1
  }

  function SlashStart(text: Bytes, from: nat, at: nat): (first: nat)
    requires from <= at <= |text|
    ensures SlashRun(text, from, first, at)
  {
    if at == from || text[at - 1] != BACKSLASH then at else SlashStart(text, from, at - 1)
  }

  lemma SlashRunIsUnique(text: Bytes, from: nat, a: nat, b: nat, at: nat)
    requires SlashRun(text, from, a, at) && SlashRun(text, from, b, at)
    ensures a == b
  {
  }

  lemma EscapedIsParity(text: Bytes, from: nat, at: nat)
    requires from <= at <= |text|
    ensures Escaped(text, from, at) <==> (at - SlashStart(text, from, at)) % 2 == 1
  {
    if Escaped(text, from, at) {
      var first: nat :| SlashRun(text, from, first, at) && (at - first) % 2 == 1;
      SlashRunIsUnique(text, from, first, SlashStart(text, from, at), at);
    }
  }

  lemma EscapedNext(text: Bytes, from: nat, at: nat)
    requires from <= at < |text|
    ensures Escaped(text, from, at + 1) <==> !Escaped(text, from, at) && text[at] == BACKSLASH
  {
    EscapedIsParity(text, from, at);
    EscapedIsParity(text, from, at + 1);
  }

  /** Content that no line break and no closing quote interrupts. */
  ghost predicate InQuotes(text: Bytes, quote: Byte, from: nat, to: nat) {
    forall k: nat | from <= k < to && k < |text| ::
      !IsLineBreak(text[k]) && (text[k] == quote ==> Escaped(text, from, k))
  }

  /** Quoted content ends at the first quote that is not escaped, the first line break, or the end of the text. */
  ghost predicate IsQuotedEnd(text: Bytes, quote: Byte, from: nat, end: nat) {
    && from <= end <= |text|
    && InQuotes(text, quote, from, end)
    && (end < |text| ==> IsLineBreak(text[end]) || (text[end] == quote && !Escaped(text, from, end)))
  }

  lemma {:induction false} QuotedEndFrom(text: Bytes, quote: Byte, from: nat, at: nat, escaped: bool)
    requires from <= at <= |text| && InQuotes(text, quote, from, at) && (escaped <==> Escaped(text, from, at))
    ensures IsQuotedEnd(text, quote, from, QuotedEnd(text, quote, at, escaped))
    decreases |text| - at
  {
    if at < |text| && !IsLineBreak(text[at]) && !(text[at] == quote && !escaped) {
      EscapedNext(text, from, at);
      QuotedEndFrom(text, quote, from, at + 1, !escaped && text[at] == BACKSLASH);
    }
  }

  lemma QuotedEndIsUnique(text: Bytes, quote: Byte, from: nat, a: nat, b: nat)
    requires IsQuotedEnd(text, quote, from, a) && IsQuotedEnd(text, quote, from, b)
    ensures a == b
  {
    assert a < |text| ==> IsLineBreak(text[a]) || !Escaped(text, from, a);
    assert b < |text| ==> IsLineBreak(text[b]) || !Escaped(text, from, b);
  }

  lemma QuotedEndMeaning(text: Bytes, quote: Byte, from: nat)
    requires from <= |text|
    ensures IsQuotedEnd(text, quote, from, QuotedEnd(text, quote, from, false))
    ensures forall end: nat | IsQuotedEnd(text, quote, from, end) :: end == QuotedEnd(text, quote, from, false)
  {
    EscapedIsParity(text, from, from);
    QuotedEndFrom(text, quote, from, from, false);
    forall end: nat | IsQuotedEnd(text, quote, from, end) ensures end == QuotedEnd(text, quote, from, false) {
      QuotedEndIsUnique(text, quote, from, end, QuotedEnd(text, quote, from, false));
    }
  }

  // Assignments.

  /** The value at `at`: what stands between quotes, or the whole run of bytes that are neither space nor quote. */
  ghost predicate IsValue(text: Bytes, at: nat, span: Span) {
    && at < |text|
    && span.start < span.end
    && if IsQuote(text[at]) then span.start == at + 1 && IsQuotedEnd(text, text[at], at + 1, span.end)
       else span.start == at && IsRun(text, at, span.end, IsBare)
  }

  lemma ValueMeaning(text: Bytes, at: nat, span: Span)
    ensures AssignmentValue(text, at) == Some(span) <==> IsValue(text, at, span)
  {
    if at < |text| {
      if IsQuote(text[at]) {
        QuotedEndMeaning(text, text[at], at + 1);
      } else {
        RunEndIsRun(text, at, IsBare);
      }
    }
  }

  /** Blanks, `=` or `:`, and blanks stand between `from` and `value`. */
  predicate IsDelimited(text: Bytes, from: nat, delimiter: nat, value: nat) {
    && IsRun(text, from, delimiter, IsBlank)
    && delimiter < |text| && (text[delimiter] == 0x3D || text[delimiter] == 0x3A)
    && IsRun(text, delimiter + 1, value, IsBlank)
  }

  /** Behind `from` a value is given. */
  ghost predicate IsGiven(text: Bytes, from: nat, span: Span) {
    exists delimiter: nat, value: nat :: IsDelimited(text, from, delimiter, value) && IsValue(text, value, span)
  }

  lemma GivenMeaning(text: Bytes, key: Bytes, from: nat, span: Span)
    requires from <= |text|
    ensures ValueAfterKey(text, key, from) == Some(span) <==> SensitiveKey(key) && IsGiven(text, from, span)
  {
    var delimiter := RunEnd(text, from, IsBlank);
    RunEndIsRun(text, from, IsBlank);
    if delimiter < |text| && (text[delimiter] == 0x3D || text[delimiter] == 0x3A) {
      var value := RunEnd(text, delimiter + 1, IsBlank);
      RunEndIsRun(text, delimiter + 1, IsBlank);
      ValueMeaning(text, value, span);
      assert IsDelimited(text, from, delimiter, value);
    }
  }

  /** A whole word, in matching quotes or in none, and where what follows it begins. */
  predicate IsWord(text: Bytes, start: nat, word: Span, after: nat)
    requires start < |text|
  {
    && word.start < word.end
    && IsRun(text, word.start, word.end, IsKey)
    && if IsQuote(text[start])
       then word.start == start + 1 && word.end < |text| && text[word.end] == text[start] && after == word.end + 1
       else word.start == start && after == word.end
  }

  ghost predicate IsAssignment(text: Bytes, start: nat, span: Span)
    requires start < |text|
  {
    && (start > 0 ==> !IsKey(text[start - 1]))
    && exists word: Span, after: nat ::
         IsWord(text, start, word, after) && SensitiveKey(text[word.start..word.end]) && IsGiven(text, after, span)
  }

  lemma AssignmentIsFound(text: Bytes, start: nat, word: Span, after: nat, span: Span)
    requires start < |text| && (start > 0 ==> !IsKey(text[start - 1]))
    requires IsWord(text, start, word, after) && SensitiveKey(text[word.start..word.end]) && IsGiven(text, after, span)
    ensures SensitiveAssignment(text, start) == Some(span)
  {
    RunEndIsRun(text, word.start, IsKey);
    assert AfterKey(text, OpeningQuote(text, start), word.end) == Some(after);
    GivenMeaning(text, text[word.start..word.end], after, span);
  }

  lemma FoundIsAssignment(text: Bytes, start: nat, span: Span)
    requires start < |text| && SensitiveAssignment(text, start) == Some(span)
    ensures IsAssignment(text, start, span)
  {
    var quote := OpeningQuote(text, start);
    var keyStart := if quote.Some? then start + 1 else start;
    var word := Span(keyStart, RunEnd(text, keyStart, IsKey));
    RunEndIsRun(text, keyStart, IsKey);
    var after := AfterKey(text, quote, word.end).value;
    assert IsWord(text, start, word, after);
    GivenMeaning(text, text[word.start..word.end], after, span);
  }

  /** What is masked of an assignment is exactly the value given to a sensitive key that is a whole word. */
  lemma AssignmentMeaning(text: Bytes, start: nat, span: Span)
    requires start < |text|
    ensures SensitiveAssignment(text, start) == Some(span) <==> IsAssignment(text, start, span)
  {
    if SensitiveAssignment(text, start) == Some(span) {
      FoundIsAssignment(text, start, span);
    }
    if IsAssignment(text, start, span) {
      var word: Span, after: nat :|
        IsWord(text, start, word, after) && SensitiveKey(text[word.start..word.end]) && IsGiven(text, after, span);
      AssignmentIsFound(text, start, word, after, span);
    }
  }

  // Tokens.

  /** The prefix at `start` and the whole run of token bytes behind it, `minimum` bytes together at least. */
  predicate IsTokenBehind(text: Bytes, start: nat, prefix: string, minimum: nat, end: nat) {
    && HasPrefix(text, start, prefix)
    && IsRun(text, start + |prefix|, end, IsToken)
    && end - start >= minimum
  }

  lemma TokenBehindMeaning(text: Bytes, start: nat, prefix: string, minimum: nat, end: nat)
    ensures IsTokenBehind(text, start, prefix, minimum, end) <==>
              && HasPrefix(text, start, prefix)
              && end == RunEnd(text, start + |prefix|, IsToken)
              && end - start >= minimum
  {
    if HasPrefix(text, start, prefix) {
      RunEndIsRun(text, start + |prefix|, IsToken);
    }
  }

  ghost predicate Fires(text: Bytes, start: nat, prefix: string, minimum: nat) {
    exists end: nat :: IsTokenBehind(text, start, prefix, minimum, end)
  }

  /** The first of the prefixes to stand before a token long enough decides. */
  ghost predicate DecidedBy(text: Bytes, start: nat, prefixes: seq<string>, minimum: nat, end: nat, k: nat) {
    && k < |prefixes|
    && IsTokenBehind(text, start, prefixes[k], minimum, end)
    && forall j: nat | j < k :: !Fires(text, start, prefixes[j], minimum)
  }

  ghost predicate IsPrefixed(text: Bytes, start: nat, prefixes: seq<string>, minimum: nat, end: nat) {
    exists k: nat :: DecidedBy(text, start, prefixes, minimum, end, k)
  }

  lemma FirstPrefixFires(text: Bytes, start: nat, prefixes: seq<string>, minimum: nat, end: nat)
    requires prefixes != [] && Fires(text, start, prefixes[0], minimum)
    ensures IsPrefixed(text, start, prefixes, minimum, end)
       <==> IsTokenBehind(text, start, prefixes[0], minimum, end)
  {
    if IsTokenBehind(text, start, prefixes[0], minimum, end) {
      assert DecidedBy(text, start, prefixes, minimum, end, 0);
    }
  }

  lemma FirstPrefixFails(text: Bytes, start: nat, prefixes: seq<string>, minimum: nat, end: nat)
    requires prefixes != [] && !Fires(text, start, prefixes[0], minimum)
    ensures IsPrefixed(text, start, prefixes, minimum, end) <==> IsPrefixed(text, start, prefixes[1..], minimum, end)
  {
    if IsPrefixed(text, start, prefixes, minimum, end) {
      var k: nat :| DecidedBy(text, start, prefixes, minimum, end, k);
      assert k > 0;
      forall j: nat | j < k - 1 ensures !Fires(text, start, prefixes[1..][j], minimum) {
        assert prefixes[1..][j] == prefixes[j + 1];
      }
      assert DecidedBy(text, start, prefixes[1..], minimum, end, k - 1);
    }
    if IsPrefixed(text, start, prefixes[1..], minimum, end) {
      var k: nat :| DecidedBy(text, start, prefixes[1..], minimum, end, k);
      forall j: nat | j < k + 1 ensures !Fires(text, start, prefixes[j], minimum) {
        assert j > 0 ==> prefixes[1..][j - 1] == prefixes[j];
      }
      assert DecidedBy(text, start, prefixes, minimum, end, k + 1);
    }
  }

  lemma {:induction false} PrefixedMeaning(text: Bytes, start: nat, prefixes: seq<string>, minimum: nat, span: Span)
    ensures PrefixedToken(text, start, prefixes, minimum) == Some(span)
       <==> span.start == start && IsPrefixed(text, start, prefixes, minimum, span.end)
    decreases |prefixes|
  {
    if prefixes != [] {
      var end := RunEnd(text, start + |prefixes[0]|, IsToken);
      TokenBehindMeaning(text, start, prefixes[0], minimum, end);
      TokenBehindMeaning(text, start, prefixes[0], minimum, span.end);
      if IsTokenBehind(text, start, prefixes[0], minimum, end) {
        FirstPrefixFires(text, start, prefixes, minimum, span.end);
      } else {
        forall other: nat ensures !IsTokenBehind(text, start, prefixes[0], minimum, other) {
          TokenBehindMeaning(text, start, prefixes[0], minimum, other);
        }
        FirstPrefixFails(text, start, prefixes, minimum, span.end);
        PrefixedMeaning(text, start, prefixes[1..], minimum, span);
      }
    }
  }

  /**
   * A token is masked from its known prefix on, to the end of its run: when it begins a word, and is 16 bytes long with
   * a long prefix, or else 40 with a short one.
   */
  lemma InlineTokenMeaning(text: Bytes, start: nat, span: Span)
    requires start < |text|
    ensures InlineToken(text, start) == Some(span) <==>
              && (start > 0 ==> !IsToken(text[start - 1]))
              && span.start == start
              && (IsPrefixed(text, start, LONG_PREFIXES, 16, span.end)
                  || ((forall end: nat :: !IsPrefixed(text, start, LONG_PREFIXES, 16, end))
                      && IsPrefixed(text, start, SHORT_PREFIXES, 40, span.end)))
  {
    InlineFrom(text, start, LONG_PREFIXES, SHORT_PREFIXES, span);
  }

  lemma InlineFrom(text: Bytes, start: nat, long: seq<string>, short: seq<string>, span: Span)
    ensures OrElse(PrefixedToken(text, start, long, 16), PrefixedToken(text, start, short, 40)) == Some(span) <==>
              && span.start == start
              && (IsPrefixed(text, start, long, 16, span.end)
                  || ((forall end: nat :: !IsPrefixed(text, start, long, 16, end))
                      && IsPrefixed(text, start, short, 40, span.end)))
  {
    PrefixedMeaning(text, start, long, 16, span);
    PrefixedMeaning(text, start, short, 40, span);
    forall end: nat ensures IsPrefixed(text, start, long, 16, end)
                            <==> PrefixedToken(text, start, long, 16) == Some(Span(start, end)) {
      PrefixedMeaning(text, start, long, 16, Span(start, end));
    }
    var first := PrefixedToken(text, start, long, 16);
    if first.Some? {
      PrefixedMeaning(text, start, long, 16, first.value);
    }
  }

  // AWS access keys.

  predicate IsKeyKind(kind: Bytes) {
    || kind == [0x41, 0x4B, 0x49, 0x41] || kind == [0x41, 0x53, 0x49, 0x41] || kind == [0x41, 0x49, 0x44, 0x41]
    || kind == [0x41, 0x47, 0x50, 0x41] || kind == [0x41, 0x52, 0x4F, 0x41] || kind == [0x41, 0x4E, 0x50, 0x41]
  }

  lemma PrefixIsText(text: Bytes, at: nat, prefix: string, kind: Bytes)
    requires at + 4 <= |text| && |prefix| == |kind| == 4
    requires forall i: nat | i < 4 :: prefix[i] as int == kind[i]
    ensures HasPrefix(text, at, prefix) <==> text[at..at + 4] == kind
  {
    var found := text[at..at + 4];
    assert forall i: nat | i < 4 :: found[i] == text[at + i];
  }

  lemma KeyKinds(text: Bytes, at: nat)
    requires at + 4 <= |text|
    ensures (exists p :: p in AWS_PREFIXES && HasPrefix(text, at, p)) <==> IsKeyKind(text[at..at + 4])
  {
    PrefixIsText(text, at, "AKIA", [0x41, 0x4B, 0x49, 0x41]);
    PrefixIsText(text, at, "ASIA", [0x41, 0x53, 0x49, 0x41]);
    PrefixIsText(text, at, "AIDA", [0x41, 0x49, 0x44, 0x41]);
    PrefixIsText(text, at, "AGPA", [0x41, 0x47, 0x50, 0x41]);
    PrefixIsText(text, at, "AROA", [0x41, 0x52, 0x4F, 0x41]);
    PrefixIsText(text, at, "ANPA", [0x41, 0x4E, 0x50, 0x41]);
    assert AWS_PREFIXES[0] == "AKIA" && AWS_PREFIXES[1] == "ASIA" && AWS_PREFIXES[2] == "AIDA"
           && AWS_PREFIXES[3] == "AGPA" && AWS_PREFIXES[4] == "AROA" && AWS_PREFIXES[5] == "ANPA";
  }

  /**
   * A key is masked whole: twenty upper-case letters and digits that begin with the name of a kind of key, with no
   * byte of a token on either side.
   */
  lemma AwsAccessKeyMeaning(text: Bytes, start: nat, span: Span)
    ensures AwsAccessKey(text, start) == Some(span) <==>
              && span.start == start && span.end == start + 20 <= |text|
              && IsKeyKind(text[start..start + 4])
              && (forall i: nat | start <= i < start + 20 :: IsUpper(text[i]) || IsDigit(text[i]))
              && (start > 0 ==> !IsToken(text[start - 1]))
              && (start + 20 < |text| ==> !IsToken(text[start + 20]))
  {
    if start + 20 <= |text| {
      var key := text[..start + 20];
      assert key[start..start + 4] == text[start..start + 4];
      KeyKinds(key, start);
    }
  }
}
