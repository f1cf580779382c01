// Masking credentials in tool output: the recognisers, and the scan that applies them.

module Redaction {
  import opened Basics

  const QUOTE: Byte := 0x27
  const DOUBLE_QUOTE: Byte := 0x22
  const BACKSLASH: Byte := 0x5C
  const REDACTED: Bytes := [91, 114, 101, 100, 97, 99, 116, 101, 100, 93]

  /** Where a secret value starts and ends. */
  datatype Span = Span(start: nat, end: nat)

  // Bytes.

  predicate IsDigit(b: Byte) {
    0x30 <= b <= 0x39
  }

  predicate IsUpper(b: Byte) {
    0x41 <= b <= 0x5A
  }

  predicate IsAlphanumeric(b: Byte) {
    IsDigit(b) || IsUpper(b) || 0x61 <= b <= 0x7A
  }

  predicate IsKey(b: Byte) {
    IsAlphanumeric(b) || b == 0x5F
  }

  predicate IsToken(b: Byte) {
    IsAlphanumeric(b) || b == 0x2D || b == 0x5F || b == 0x2E
  }

  predicate IsLineBreak(b: Byte) {
    b == 0x0A || b == 0x0D
  }

  /** `is_ascii_whitespace`. */
  predicate IsSpace(b: Byte) {
    b == 0x09 || b == 0x0A || b == 0x0C || b == 0x0D || b == 0x20
  }

  predicate IsBlank(b: Byte) {
    IsSpace(b) && !IsLineBreak(b)
  }

  predicate IsQuote(b: Byte) {
    b == QUOTE || b == DOUBLE_QUOTE
  }

  predicate IsBare(b: Byte) {
    !IsSpace(b) && !IsQuote(b)
  }

  /** `text[at..].starts_with(prefix)`. */
  predicate HasPrefix(text: Bytes, at: nat, prefix: string) {
    at + |prefix| <= |text| && forall i: nat | i < |prefix| :: text[at + i] == prefix[i] as int
  }

  /** The end of the run of bytes from `at` on that satisfy `p`. */
  function RunEnd(text: Bytes, at: nat, p: Byte -> bool): (end: nat)
    ensures at <= end && (at <= |text| ==> end <= |text|)
    ensures forall i: nat | at <= i < end :: i < |text| && p(text[i])
    ensures end < |text| ==> !p(text[end])
    decreases |text| - at
  {
    if at < |text| && p(text[at]) then RunEnd(text, at + 1, p) else at
  }

  method FindRunEnd(text: Bytes, at: nat, p: Byte -> bool) returns (end: nat)
    ensures end == RunEnd(text, at, p)
  {
    end := at;
    while end < |text| && p(text[end])
      invariant RunEnd(text, end, p) == RunEnd(text, at, p)
    {
      end := end + 1;
    }
  }

  // `https://user:password@`.

  predicate EndsAuthority(b: Byte) {
    b == 0x2F || b == 0x3F || b == 0x23 || b == 0x0A || b == 0x0D || b == 0x09 || b == 0x20
  }

  function AuthEnd(text: Bytes, start: nat, index: nat, colon: bool): Option<Span>
    decreases |text| - index
  {
    if index >= |text| then None
    else if text[index] == 0x3A then AuthEnd(text, start, index + 1, true)
    else if text[index] == 0x40 && colon && index > start then Some(Span(start, index))
    else if EndsAuthority(text[index]) then None
    else AuthEnd(text, start, index + 1, colon)
  }

  function BasicAuthUrl(text: Bytes, start: nat): Option<Span> {
    if !HasPrefix(text, start, "https://") then None else AuthEnd(text, start + 8, start + 8, false)
  }

  method FindBasicAuthUrl(text: Bytes, start: nat) returns (span: Option<Span>)
    ensures span == BasicAuthUrl(text, start)
  {
    if !HasPrefix(text, start, "https://") {
      return None;
    }
    var credentialStart := start + 8;
    var colon := false;
    for index := credentialStart to |text|
      invariant AuthEnd(text, credentialStart, index, colon) == BasicAuthUrl(text, start)
    {
      if text[index] == 0x3A {
        colon := true;
      } else if text[index] == 0x40 && colon && index > credentialStart {
        return Some(Span(credentialStart, index));
      } else if EndsAuthority(text[index]) {
        return None;
      }
    }
    span := None;
  }

  // AWS access keys.

  const AWS_PREFIXES: seq<string> := ["AKIA", "ASIA", "AIDA", "AGPA", "AROA", "ANPA"]

  function AwsAccessKey(text: Bytes, start: nat): Option<Span> {
    if start + 20 > |text| then None
    else if !(exists p :: p in AWS_PREFIXES && HasPrefix(text[..start + 20], start, p)) then None
    else if exists i: nat :: start <= i < start + 20 && !(IsUpper(text[i]) || IsDigit(text[i])) then None
    else if start > 0 && IsToken(text[start - 1]) then None
    else if start + 20 < |text| && IsToken(text[start + 20]) then None
    else Some(Span(start, start + 20))
  }

  // `key = value`, with either side quoted or not.

  const SENSITIVE: seq<string> :=
      ["password", "passwd", "api_key", "apikey", "secret", "token", "private_key", "access_key"]

  function Lower(b: Byte): Byte {
    if IsUpper(b) then b + 0x20 else b
  }

  function Lowercase(bytes: Bytes): Bytes {
    seq(|bytes|, i requires 0 <= i < |bytes| => Lower(bytes[i]))
  }

  predicate SensitiveKey(key: Bytes) {
    var lower := Lowercase(key);
    exists n, at: nat :: n in SENSITIVE && at <= |lower| && HasPrefix(lower, at, n)
  }

  /** The end of quoted content: an unescaped closing quote, a line break, or the end of the text. */
  function QuotedEnd(text: Bytes, quote: Byte, at: nat, escaped: bool): (end: nat)
    ensures at <= end && (at <= |text| ==> end <= |text|)
    ensures end < |text| ==> IsLineBreak(text[end]) || text[end] == quote
    decreases |text| - at
  {
    if at >= |text| || IsLineBreak(text[at]) || (text[at] == quote && !escaped) then at
    else QuotedEnd(text, quote, at + 1, !escaped && text[at] == BACKSLASH)
  }

  function NonEmpty(start: nat, end: nat): Option<Span> {
    if end > start then Some(Span(start, end)) else None
  }

  function AssignmentValue(text: Bytes, start: nat): Option<Span> {
    if start >= |text| then None
    else if IsQuote(text[start]) then NonEmpty(start + 1, QuotedEnd(text, text[start], start + 1, false))
    else NonEmpty(start, RunEnd(text, start, IsBare))
  }

  method FindAssignmentValue(text: Bytes, start: nat) returns (span: Option<Span>)
    ensures span == AssignmentValue(text, start)
  {
    if start >= |text| {
      return None;
    }
    var first := text[start];
    if IsQuote(first) {
      var contentStart, end, escaped := start + 1, start + 1, false;
      while end < |text|
        invariant contentStart <= end <= |text|
        invariant QuotedEnd(text, first, end, escaped) == QuotedEnd(text, first, contentStart, false)
      {
        if IsLineBreak(text[end]) || (text[end] == first && !escaped) {
          break;
        }
        if escaped {
          escaped := false;
        } else if text[end] == BACKSLASH {
          escaped := true;
        }
        end := end + 1;
      }
      return if end > contentStart then Some(Span(contentStart, end)) else None;
    }
    var end := FindRunEnd(text, start, IsBare);
    span := if end > start then Some(Span(start, end)) else None;
  }

  /** Where the key ends and where what follows it begins, past a matching closing quote. */
  function AfterKey(text: Bytes, quote: Option<Byte>, keyEnd: nat): Option<nat> {
    if quote.None? then Some(keyEnd)
    else if keyEnd < |text| && text[keyEnd] == quote.value then Some(keyEnd + 1)
    else None
  }

  function OpeningQuote(text: Bytes, start: nat): Option<Byte> {
    if start < |text| && IsQuote(text[start]) then Some(text[start]) else None
  }

  /** What follows a sensitive key: blanks, a delimiter, blanks, and the value. */
  function ValueAfterKey(text: Bytes, key: Bytes, afterKey: nat): Option<Span> {
    var delimiter := RunEnd(text, afterKey, IsBlank);
    if delimiter >= |text| || !(text[delimiter] == 0x3D || text[delimiter] == 0x3A) || !SensitiveKey(key) then None
    else AssignmentValue(text, RunEnd(text, delimiter + 1, IsBlank))
  }

  method FindValueAfterKey(text: Bytes, key: Bytes, afterKey: nat) returns (span: Option<Span>)
    ensures span == ValueAfterKey(text, key, afterKey)
  {
    var delimiter := FindRunEnd(text, afterKey, IsBlank);
    if delimiter >= |text| || !(text[delimiter] == 0x3D || text[delimiter] == 0x3A) || !SensitiveKey(key) {
      return None;
    }
    delimiter := FindRunEnd(text, delimiter + 1, IsBlank);
    span := FindAssignmentValue(text, delimiter);
  }

  function SensitiveAssignment(text: Bytes, start: nat): Option<Span>
    requires start < |text|
  {
    if start > 0 && IsKey(text[start - 1]) then None
    else
      var quote := OpeningQuote(text, start);
      var keyStart := if quote.Some? then start + 1 else start;
      if keyStart >= |text| || !IsKey(text[keyStart]) then None
      else
        var keyEnd := RunEnd(text, keyStart, IsKey);
        match AfterKey(text, quote, keyEnd)
        case None => None
        case Some(afterKey) => ValueAfterKey(text, text[keyStart..keyEnd], afterKey)
  }

  method FindSensitiveAssignment(text: Bytes, start: nat) returns (span: Option<Span>)
    requires start < |text|
    ensures span == SensitiveAssignment(text, start)
  {
    if start > 0 && IsKey(text[start - 1]) {
      return None;
    }
    var quote := OpeningQuote(text, start);
    var keyStart := if quote.Some? then start + 1 else start;
    if keyStart >= |text| || !IsKey(text[keyStart]) {
      return None;
    }
    var delimiter := FindRunEnd(text, keyStart, IsKey);
    var keyEnd := delimiter;
    if quote.Some? {
      if delimiter >= |text| || text[delimiter] != quote.value {
        return None;
      }
      delimiter := delimiter + 1;
    }
    assert AfterKey(text, quote, keyEnd) == Some(delimiter);
    span := FindValueAfterKey(text, text[keyStart..keyEnd], delimiter);
  }

  // Tokens with a known prefix.

  const LONG_PREFIXES: seq<string> := ["sk-", "sk_live_", "pk_live_", "github_pat_", "xoxb-", "xoxp-", "Bearer "]
  const SHORT_PREFIXES: seq<string> := ["ghp_", "gho_", "ghu_", "ghs_", "ghr_"]

  function PrefixedToken(text: Bytes, start: nat, prefixes: seq<string>, minimum: nat): Option<Span>
    decreases |prefixes|
  {
    if prefixes == [] then None
    else if HasPrefix(text, start, prefixes[0]) && RunEnd(text, start + |prefixes[0]|, IsToken) - start >= minimum then
      Some(Span(start, RunEnd(text, start + |prefixes[0]|, IsToken)))
    else PrefixedToken(text, start, prefixes[1..], minimum)
  }

  method FindPrefixedToken(text: Bytes, start: nat, prefixes: seq<string>, minimum: nat) returns (span: Option<Span>)
    ensures span == PrefixedToken(text, start, prefixes, minimum)
  {
    for k := 0 to |prefixes|
      invariant PrefixedToken(text, start, prefixes[k..], minimum) == PrefixedToken(text, start, prefixes, minimum)
    {
      assert prefixes[k..][1..] == prefixes[k + 1..];
      if !HasPrefix(text, start, prefixes[k]) {
        continue;
      }
      var end := FindRunEnd(text, start + |prefixes[k]|, IsToken);
      if end - start >= minimum {
        return Some(Span(start, end));
      }
    }
    span := None;
  }

  function InlineToken(text: Bytes, start: nat): Option<Span>
    requires start < |text|
  {
    if start > 0 && IsToken(text[start - 1]) then None
    else OrElse(PrefixedToken(text, start, LONG_PREFIXES, 16), PrefixedToken(text, start, SHORT_PREFIXES, 40))
  }

  // The scan.

  function OrElse(first: Option<Span>, second: Option<Span>): Option<Span> {
    if first.Some? then first else second
  }

  datatype Recogniser = AuthUrl | AwsKey | Assignment | Inline

  const RECOGNISERS: seq<Recogniser> := [AuthUrl, AwsKey, Assignment, Inline]

  function Recognise(recogniser: Recogniser, text: Bytes, start: nat): Option<Span>
    requires start < |text|
  {
    match recogniser
    case AuthUrl => BasicAuthUrl(text, start)
    case AwsKey => AwsAccessKey(text, start)
    case Assignment => SensitiveAssignment(text, start)
    case Inline => InlineToken(text, start)
  }

  /** What the first recogniser to fire finds. */
  function FirstSpan(recognisers: seq<Recogniser>, text: Bytes, start: nat): Option<Span>
    requires start < |text|
  {
    if recognisers == [] then None
    else OrElse(Recognise(recognisers[0], text, start), FirstSpan(recognisers[1..], text, start))
  }

  function SecretSpan(text: Bytes, start: nat): Option<Span>
    requires start < |text|
  {
    FirstSpan(RECOGNISERS, text, start)
  }

  lemma SecretSpanTriesAll(text: Bytes, start: nat)
    requires start < |text|
    ensures SecretSpan(text, start)
         == OrElse(BasicAuthUrl(text, start),
                   OrElse(AwsAccessKey(text, start),
                          OrElse(SensitiveAssignment(text, start), InlineToken(text, start))))
  {
    FirstSpanStep(Inline, [], text, start);
    FirstSpanStep(Assignment, [Inline], text, start);
    FirstSpanStep(AwsKey, [Assignment, Inline], text, start);
    FirstSpanStep(AuthUrl, [AwsKey, Assignment, Inline], text, start);
    assert [AuthUrl] + [AwsKey, Assignment, Inline] == RECOGNISERS;
    assert [AwsKey] + [Assignment, Inline] == [AwsKey, Assignment, Inline];
    assert [Assignment] + [Inline] == [Assignment, Inline];
    assert [Inline] + [] == [Inline];
  }

  lemma {:induction false} FirstSpanStep(first: Recogniser, rest: seq<Recogniser>, text: Bytes, start: nat)
    requires start < |text|
    ensures FirstSpan([first] + rest, text, start)
            == OrElse(Recognise(first, text, start), FirstSpan(rest, text, start))
  {
    assert ([first] + rest)[1..] == rest;
  }

  method FindSecretSpan(text: Bytes, start: nat) returns (span: Option<Span>)
    requires start < |text|
    ensures span == SecretSpan(text, start)
  {
    SecretSpanTriesAll(text, start);
    span := FindBasicAuthUrl(text, start);
    if span.Some? {
      return;
    }
    span := AwsAccessKey(text, start);
    if span.Some? {
      return;
    }
    span := FindSensitiveAssignment(text, start);
    if span.Some? || (start > 0 && IsToken(text[start - 1])) {
      return;
    }
    span := FindPrefixedToken(text, start, LONG_PREFIXES, 16);
    if span.None? {
      span := FindPrefixedToken(text, start, SHORT_PREFIXES, 40);
    }
  }

  /** The whole scan from `index` on: the spans it masks, in order. */
  function SpansFrom(text: Bytes, index: nat): seq<Span>
    decreases |text| - index
  {
    if index >= |text| then []
    else match SecretSpan(text, index)
      case None => SpansFrom(text, index + 1)
      case Some(span) => SpanIsSound(text, index); [span] + SpansFrom(text, span.end)
  }

  /** The text from `copied` on with the spans masked. */
  function Masked(text: Bytes, copied: nat, spans: seq<Span>): Bytes
    requires Ordered(text, copied, spans)
    decreases |spans|
  {
    if spans == [] then text[copied..]
    else text[copied..spans[0].start] + REDACTED + Masked(text, spans[0].end, spans[1..])
  }

  /** Spans that follow one another from `from` on, none of them empty. */
  predicate Ordered(text: Bytes, from: nat, spans: seq<Span>)
    decreases |spans|
  {
    from <= |text|
        && (spans != [] ==> from <= spans[0].start < spans[0].end <= |text| && Ordered(text, spans[0].end, spans[1..]))
  }

  /** `redact_secrets`. */
  function Redact(text: Bytes): Bytes {
    SpansAreOrdered(text, 0, 0);
    Masked(text, 0, SpansFrom(text, 0))
  }

  /** Tries one place; `rest` is what the scan finds from the next place on. */
  method ScanAt(text: Bytes, index: nat, ghost spans: seq<Span>) returns (found: Option<Span>, ghost rest: seq<Span>)
    requires index < |text| && spans == SpansFrom(text, index)
    ensures found.None? ==> rest == spans && rest == SpansFrom(text, index + 1)
    ensures found.Some? ==> spans == [found.value] + rest && rest == SpansFrom(text, found.value.end)
    ensures SoundIfAny(text, index, found)
  {
    found := FindSecretSpan(text, index);
    SpanIsSound(text, index);
    rest := if found.None? then SpansFrom(text, index + 1) else SpansFrom(text, found.value.end);
  }

  /** The output so far, and the rest of the text with the remaining spans masked, make up the goal. */
  ghost predicate OnCourse(text: Bytes, output: Bytes, copied: nat, spans: seq<Span>, goal: Bytes) {
    Ordered(text, copied, spans) && output + Masked(text, copied, spans) == goal && (output == [] ==> copied == 0)
  }

  method RedactSecrets(text: Bytes) returns (masked: Bytes)
    ensures masked == Redact(text)
  {
    var output: Bytes := [];
    var copied: nat, index: nat := 0, 0;
    ghost var spans, goal := SpansFrom(text, 0), Redact(text);
    StartsOnCourse(text);
    while index < |text|
      invariant copied <= index <= |text|
      invariant spans == SpansFrom(text, index)
      invariant OnCourse(text, output, copied, spans, goal)
      decreases |text| - index
    {
      ghost var rest;
      var found;
      found, rest := ScanAt(text, index, spans);
      if found.None? {
        index := index + 1;
      } else {
        var span := found.value;
        StaysOnCourse(text, output, copied, span, rest, goal);
        output := output + text[copied..span.start] + REDACTED;
        copied, index, spans := span.end, span.end, rest;
      }
    }
    if output == [] {
      assert text[0..] == text;
      return text;
    }
    masked := output + text[copied..];
  }

  lemma {:induction false} StartsOnCourse(text: Bytes)
    ensures OnCourse(text, [], 0, SpansFrom(text, 0), Redact(text))
  {
    SpansAreOrdered(text, 0, 0);
    assert [] + Redact(text) == Redact(text);
  }

  lemma StaysOnCourse(text: Bytes, output: Bytes, copied: nat, span: Span, rest: seq<Span>, goal: Bytes)
    requires OnCourse(text, output, copied, [span] + rest, goal)
    ensures copied <= span.start <= |text|
    ensures OnCourse(text, output + text[copied..span.start] + REDACTED, span.end, rest, goal)
  {
    MaskedStep(text, copied, span, rest, output, output + text[copied..span.start] + REDACTED);
  }

  lemma {:induction false} MaskedStep(text: Bytes, copied: nat, span: Span, rest: seq<Span>, output: Bytes,
          extended: Bytes)
    requires Ordered(text, copied, [span] + rest)
    requires extended == output + text[copied..span.start] + REDACTED
    ensures Ordered(text, span.end, rest) && extended != []
    ensures output + Masked(text, copied, [span] + rest) == extended + Masked(text, span.end, rest)
  {
    assert ([span] + rest)[1..] == rest;
    RegroupFour(output, text[copied..span.start], REDACTED, Masked(text, span.end, rest));
    assert extended[|extended| - 1] == 93;
  }

  // Every recogniser moves the scan forward, and starts and ends between characters.

  /** Next to an ASCII byte, or at an end of the text. */
  predicate BetweenCharacters(text: Bytes, i: nat)
    requires i <= |text|
  {
    i == 0 || i == |text| || text[i] < 0x80 || text[i - 1] < 0x80
  }

  predicate SoundSpan(text: Bytes, at: nat, span: Span) {
    && at <= span.start < span.end <= |text|
    && BetweenCharacters(text, span.start)
    && BetweenCharacters(text, span.end)
  }

  predicate SoundIfAny(text: Bytes, at: nat, span: Option<Span>) {
    span.Some? ==> SoundSpan(text, at, span.value)
  }

  predicate IsAscii(prefix: string) {
    prefix != [] && forall i: nat | i < |prefix| :: prefix[i] as int < 0x80
  }

  lemma PrefixesAreAscii()
    ensures forall p :: p in LONG_PREFIXES ==> IsAscii(p)
    ensures forall p :: p in SHORT_PREFIXES ==> IsAscii(p)
    ensures IsAscii("https://")
  {
  }

  lemma {:induction false} AuthEndShape(text: Bytes, start: nat, index: nat, colon: bool)
    requires start <= index
    ensures AuthEnd(text, start, index, colon).Some? ==>
              var span := AuthEnd(text, start, index, colon).value;
              span.start == start < span.end < |text| && text[span.end] == 0x40
    decreases |text| - index
  {
    if index < |text| {
      AuthEndShape(text, start, index + 1, colon || text[index] == 0x3A);
    }
  }

  lemma AuthIsSound(text: Bytes, start: nat)
    ensures SoundIfAny(text, start, BasicAuthUrl(text, start))
  {
    var scheme := "https://";
    assert |scheme| == 8 && scheme[7] == '/';
    if HasPrefix(text, start, scheme) {
      assert text[start + 7] == scheme[7] as int;
      AuthEndShape(text, start + 8, start + 8, false);
    }
  }

  lemma AwsIsSound(text: Bytes, start: nat)
    ensures SoundIfAny(text, start, AwsAccessKey(text, start))
  {
    if AwsAccessKey(text, start).Some? {
      assert IsUpper(text[start]) || IsDigit(text[start]);
      var last := start + 19;
      assert IsUpper(text[last]) || IsDigit(text[last]);
    }
  }

  lemma ValueIsSound(text: Bytes, start: nat)
    requires 0 < start && text != [] && (start <= |text| ==> text[start - 1] < 0x80)
    ensures SoundIfAny(text, start, AssignmentValue(text, start))
  {
  }

  lemma AssignmentIsSound(text: Bytes, start: nat)
    requires start < |text|
    ensures SoundIfAny(text, start, SensitiveAssignment(text, start))
  {
    var quote := OpeningQuote(text, start);
    var keyStart := if quote.Some? then start + 1 else start;
    if keyStart < |text| {
      var keyEnd := RunEnd(text, keyStart, IsKey);
      var afterKey := AfterKey(text, quote, keyEnd);
      if afterKey.Some? {
        ValueAfterKeyIsSound(text, text[keyStart..keyEnd], afterKey.value);
        LaterIsSound(text, start, afterKey.value, ValueAfterKey(text, text[keyStart..keyEnd], afterKey.value));
      }
    }
  }

  lemma LaterIsSound(text: Bytes, start: nat, later: nat, span: Option<Span>)
    requires start <= later && SoundIfAny(text, later, span)
    ensures SoundIfAny(text, start, span)
  {
  }

  lemma ValueAfterKeyIsSound(text: Bytes, key: Bytes, afterKey: nat)
    ensures SoundIfAny(text, afterKey, ValueAfterKey(text, key, afterKey))
  {
    var delimiter := RunEnd(text, afterKey, IsBlank);
    if ValueAfterKey(text, key, afterKey).Some? {
      var start := RunEnd(text, delimiter + 1, IsBlank);
      assert text[start - 1] < 0x80 by {
        if start > delimiter + 1 { assert IsBlank(text[start - 1]); }
      }
      ValueIsSound(text, start);
    }
  }

  lemma {:induction false} TokenIsSound(text: Bytes, start: nat, prefixes: seq<string>, minimum: nat)
    requires minimum > 0 && forall p :: p in prefixes ==> IsAscii(p)
    ensures SoundIfAny(text, start, PrefixedToken(text, start, prefixes, minimum))
    decreases |prefixes|
  {
    if prefixes != [] {
      var prefix := prefixes[0];
      assert IsAscii(prefix);
      if HasPrefix(text, start, prefix) {
        var end := RunEnd(text, start + |prefix|, IsToken);
        assert text[start] == prefix[0] as int;
        assert text[end - 1] < 0x80 by {
          if end > start + |prefix| {
            assert IsToken(text[end - 1]);
          } else {
            var last := |prefix| - 1;
            assert text[start + last] == prefix[last] as int;
          }
        }
      }
      TokenIsSound(text, start, prefixes[1..], minimum);
    }
  }

  lemma InlineIsSound(text: Bytes, start: nat)
    requires start < |text|
    ensures SoundIfAny(text, start, InlineToken(text, start))
  {
    PrefixesAreAscii();
    TokenIsSound(text, start, LONG_PREFIXES, 16);
    TokenIsSound(text, start, SHORT_PREFIXES, 40);
  }

  lemma SpanIsSound(text: Bytes, start: nat)
    requires start < |text|
    ensures SoundIfAny(text, start, SecretSpan(text, start))
  {
    SecretSpanTriesAll(text, start);
    AuthIsSound(text, start);
    AwsIsSound(text, start);
    AssignmentIsSound(text, start);
    InlineIsSound(text, start);
  }

  lemma {:induction false} SpansAreOrdered(text: Bytes, copied: nat, index: nat)
    requires copied <= index && copied <= |text|
    ensures Ordered(text, copied, SpansFrom(text, index))
    decreases |text| - index
  {
    if index < |text| {
      match SecretSpan(text, index) {
        case None => SpansAreOrdered(text, copied, index + 1);
        case Some(span) =>
          SpanIsSound(text, index);
          SpansAreOrdered(text, span.end, span.end);
          assert SpansFrom(text, index)[1..] == SpansFrom(text, span.end);
      }
    }
  }

  /** Every place where a recogniser fires lies inside what some match has consumed. */
  lemma {:induction false} NothingIsMissed(text: Bytes, from: nat, i: nat)
    requires from <= i < |text| && SecretSpan(text, i).Some?
    ensures exists at: nat :: at <= i && MatchedAt(text, from, at) && i < SecretSpan(text, at).value.end
    decreases |text| - from
  {
    match SecretSpan(text, from) {
      case None => NothingIsMissed(text, from + 1, i);
        var at: nat :| at <= i && MatchedAt(text, from + 1, at) && i < SecretSpan(text, at).value.end;
        assert MatchedAt(text, from, at);
      case Some(span) =>
        SpanIsSound(text, from);
        if i < span.end {
          assert MatchedAt(text, from, from);
        } else {
          NothingIsMissed(text, span.end, i);
          var at: nat :| at <= i && MatchedAt(text, span.end, at) && i < SecretSpan(text, at).value.end;
          assert MatchedAt(text, from, at);
        }
    }
  }

  /** The scan from `from` on stops at `at`, and masks what the recogniser finds there. */
  ghost predicate MatchedAt(text: Bytes, from: nat, at: nat) {
    from <= at < |text| && SecretSpan(text, at).Some? && SecretSpan(text, at).value in SpansFrom(text, from)
  }

  // The URL recogniser, said without its loop.

  predicate Colon(text: Bytes, from: nat, to: nat) {
    exists k: nat :: from <= k < to && k < |text| && text[k] == 0x3A
  }

  predicate Plain(text: Bytes, from: nat, to: nat) {
    forall k: nat | from <= k < to && k < |text| :: !EndsAuthority(text[k])
  }

  /** The first `@` behind a colon, with nothing in between that ends an authority. */
  ghost predicate IsAuthEnd(text: Bytes, from: nat, end: nat) {
    && from < end < |text|
    && text[end] == 0x40
    && Colon(text, from, end)
    && Plain(text, from, end)
    && forall k: nat | from <= k < end && text[k] == 0x40 :: !Colon(text, from, k)
  }

  lemma {:induction false} AuthEndMeaning(text: Bytes, from: nat, index: nat)
    requires from <= index && Plain(text, from, index)
    requires forall k: nat | from <= k < index && k < |text| && text[k] == 0x40 :: !Colon(text, from, k)
    ensures forall end: nat ::
              AuthEnd(text, from, index, Colon(text, from, index)) == Some(Span(from, end))
              <==> IsAuthEnd(text, from, end) && end >= index
    ensures AuthEnd(text, from, index, Colon(text, from, index)).Some?
            ==> AuthEnd(text, from, index, Colon(text, from, index)).value.start == from
    decreases |text| - index
  {
    if index < |text| && !(text[index] == 0x40 && Colon(text, from, index)) && !EndsAuthority(text[index]) {
      assert Colon(text, from, index + 1) <==> Colon(text, from, index) || text[index] == 0x3A;
      AuthEndMeaning(text, from, index + 1);
    }
  }

  /** `https://` and then credentials: what is masked is everything up to that `@`. */
  lemma BasicAuthUrlMeaning(text: Bytes, start: nat, span: Span)
    ensures BasicAuthUrl(text, start) == Some(span) <==>
              HasPrefix(text, start, "https://") && span.start == start + 8 && IsAuthEnd(text, start + 8, span.end)
  {
    AuthEndMeaning(text, start + 8, start + 8);
    assert !Colon(text, start + 8, start + 8);
  }
}
