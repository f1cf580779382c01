// What redaction keeps: well-formed text, and everything outside the secrets.

module RedactionTheorems {
  import opened Basics
  import opened Redaction
  import opened Utf8

  predicate Between(text: Bytes, spans: seq<Span>) {
    forall i: nat | i < |spans| :: spans[i].start <= |text| && spans[i].end <= |text|
                                   && BetweenCharacters(text, spans[i].start) && BetweenCharacters(text, spans[i].end)
  }

  lemma {:induction false} SpansAreBetween(text: Bytes, index: nat)
    ensures Between(text, SpansFrom(text, index))
    decreases |text| - index
  {
    if index < |text| {
      SpanIsSound(text, index);
      match SecretSpan(text, index) {
        case None => SpansAreBetween(text, index + 1);
        case Some(span) => SpansAreBetween(text, span.end);
      }
    }
  }

  lemma CutAt(text: Bytes, from: nat, at: nat)
    requires from <= at <= |text| && BetweenCharacters(text, at) && Valid(text[from..])
    ensures Valid(text[from..at]) && Valid(text[at..])
  {
    var a, b := text[from..at], text[at..];
    assert text[from..] == a + b;
    assert a != [] ==> a[|a| - 1] == text[at - 1];
    ValidCut(a, b);
  }

  lemma {:induction false} MaskedIsValid(text: Bytes, copied: nat, spans: seq<Span>)
    requires Ordered(text, copied, spans) && Between(text, spans) && Valid(text[copied..])
    ensures Valid(Masked(text, copied, spans))
    decreases |spans|
  {
    if spans != [] {
      var span := spans[0];
      CutAt(text, copied, span.start);
      CutAt(text, span.start, span.end);
      MaskedIsValid(text, span.end, spans[1..]);
      AsciiIsValid(REDACTED);
      ValidConcat(text[copied..span.start], REDACTED);
      ValidConcat(text[copied..span.start] + REDACTED, Masked(text, span.end, spans[1..]));
    }
  }

  /** The redacted text of well-formed UTF-8 is well-formed UTF-8. */
  lemma {:induction false} RedactionKeepsUtf8(text: Bytes)
    requires Valid(text)
    ensures Valid(Redact(text))
  {
    SpansAreOrdered(text, 0, 0);
    SpansAreBetween(text, 0);
    assert text[0..] == text;
    MaskedIsValid(text, 0, SpansFrom(text, 0));
  }

  // Gaps and fillings.

  function Weave(gaps: seq<Bytes>, fillings: seq<Bytes>): Bytes
    requires |gaps| == |fillings| + 1
    decreases |fillings|
  {
    if fillings == [] then gaps[0] else gaps[0] + fillings[0] + Weave(gaps[1..], fillings[1..])
  }

  function Masks(count: nat): (masks: seq<Bytes>)
    ensures |masks| == count && forall i: nat | i < count :: masks[i] == REDACTED
  {
    seq(count, _ => REDACTED)
  }

  lemma {:induction false} MaskedIsWoven(text: Bytes, copied: nat, spans: seq<Span>)
    returns (gaps: seq<Bytes>, secrets: seq<Bytes>)
    requires Ordered(text, copied, spans)
    ensures |secrets| == |spans| && |gaps| == |spans| + 1
    ensures forall i: nat | i < |spans| ::
               spans[i].start <= spans[i].end <= |text| && secrets[i] == text[spans[i].start..spans[i].end] != []
    ensures Weave(gaps, secrets) == text[copied..]
    ensures Weave(gaps, Masks(|spans|)) == Masked(text, copied, spans)
    decreases |spans|
  {
    if spans == [] {
      gaps, secrets := [text[copied..]], [];
    } else {
      var span := spans[0];
      var laterGaps, laterSecrets := MaskedIsWoven(text, span.end, spans[1..]);
      gaps, secrets := [text[copied..span.start]] + laterGaps, [text[span.start..span.end]] + laterSecrets;
      assert gaps[1..] == laterGaps && secrets[1..] == laterSecrets && Masks(|spans|)[1..] == Masks(|spans| - 1);
      assert text[copied..] == text[copied..span.start] + text[span.start..span.end] + text[span.end..];
    }
  }

  /**
   * The text is gaps and secrets in turn; redacting it keeps the gaps, in order, and fills every secret's place with
   * the mask.
   */
  lemma RedactionKeepsTheRest(text: Bytes) returns (gaps: seq<Bytes>, secrets: seq<Bytes>)
    ensures |gaps| == |secrets| + 1 && |secrets| == |SpansFrom(text, 0)| && [] !in secrets
    ensures Weave(gaps, secrets) == text
    ensures Weave(gaps, Masks(|secrets|)) == Redact(text)
  {
    SpansAreOrdered(text, 0, 0);
    gaps, secrets := MaskedIsWoven(text, 0, SpansFrom(text, 0));
  }
}
