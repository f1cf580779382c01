// What a monitor pattern means: a literal run of bytes, or a glob with `*` and `?`.

module Glob {
  import opened Basics

  const STAR: Byte := 42
  const QUESTION: Byte := 63

  predicate IsStar(wildcard: bool, token: Byte) {
    wildcard && token == STAR
  }

  /** Does one pattern byte other than `*` accept this input byte? */
  predicate Accepts(wildcard: bool, token: Byte, byte: Byte) {
    token == byte || (wildcard && token == QUESTION)
  }

  /** The whole of `text` matches the whole of `pattern`. */
  predicate Matches(pattern: Bytes, wildcard: bool, text: Bytes)
    decreases |pattern| + |text|
  {
    if pattern == [] then
      text == []
    else
      var n, k := |pattern| - 1, |text| - 1;
      if IsStar(wildcard, pattern[n]) then
        Matches(pattern[..n], wildcard, text) || (k >= 0 && Matches(pattern, wildcard, text[..k]))
      else
        k >= 0 && Accepts(wildcard, pattern[n], text[k]) && Matches(pattern[..n], wildcard, text[..k])
  }

  /** Some suffix of `text` matches `pattern`. */
  ghost predicate EndsWith(pattern: Bytes, wildcard: bool, text: Bytes) {
    exists from: nat :: from <= |text| && Matches(pattern, wildcard, text[from..])
  }

  /** Some contiguous infix of `text` matches `pattern`. */
  ghost predicate Occurs(pattern: Bytes, wildcard: bool, text: Bytes) {
    exists from: nat, to: nat :: from <= to <= |text| && Matches(pattern, wildcard, text[from..to])
  }

  // Laws that pin the definition down: a literal pattern means equality, `*` means any run,
  // and a concatenation of patterns means a concatenation of texts.

  lemma {:induction false} LiteralIsEquality(pattern: Bytes, text: Bytes)
    ensures Matches(pattern, false, text) <==> pattern == text
  {
    if pattern != [] && text != [] {
      var n, k := |pattern| - 1, |text| - 1;
      LiteralIsEquality(pattern[..n], text[..k]);
      assert pattern == pattern[..n] + [pattern[n]];
      assert text == text[..k] + [text[k]];
    }
  }

  lemma {:induction false} StarIsAnyRun(pattern: Bytes, text: Bytes)
    ensures Matches(pattern + [STAR], true, text)
       <==> exists k: nat :: k <= |text| && Matches(pattern, true, text[..k])
  {
    var starred := pattern + [STAR];
    assert starred[..|pattern|] == pattern;
    if text == [] {
      assert text[..0] == text;
    } else {
      var shorter := text[..|text| - 1];
      StarIsAnyRun(pattern, shorter);
      assert text[..|text|] == text;
      assert forall k: nat | k <= |shorter| :: shorter[..k] == text[..k];
    }
  }

  ghost predicate SplitsAt(left: Bytes, right: Bytes, wildcard: bool, text: Bytes, k: nat) {
    k <= |text| && Matches(left, wildcard, text[..k]) && Matches(right, wildcard, text[k..])
  }

  lemma {:induction false} ConcatenationSplits(left: Bytes, right: Bytes, wildcard: bool, text: Bytes)
    ensures Matches(left + right, wildcard, text) <==> exists k: nat :: SplitsAt(left, right, wildcard, text, k)
    decreases |right| + |text|
  {
    if right == [] {
      assert left + right == left && text[..|text|] == text;
      assert SplitsAt(left, right, wildcard, text, |text|) <==> Matches(left, wildcard, text);
      assert forall k: nat | k < |text| :: text[k..] != [];
    } else {
      var n, star := |right| - 1, IsStar(wildcard, right[|right| - 1]);
      assert (left + right)[..|left + right| - 1] == left + right[..n];
      if star {
        ConcatenationSplits(left, right[..n], wildcard, text);
      }
      if text != [] {
        var shorter := text[..|text| - 1];
        ConcatenationSplits(left, if star then right else right[..n], wildcard, shorter);
        forall k: nat | k < |text|
          ensures SplitsAt(left, right, wildcard, text, k) <==>
                  if star then SplitsAt(left, right[..n], wildcard, text, k)
                      || SplitsAt(left, right, wildcard, shorter, k)
                  else Accepts(wildcard, right[n], text[|text| - 1]) && SplitsAt(left, right[..n], wildcard, shorter, k)
        {
          assert text[k..][..|text| - k - 1] == shorter[k..] && text[..k] == shorter[..k];
        }
      }
      assert SplitsAt(left, right, wildcard, text, |text|) <==> star
                                                                && SplitsAt(left, right[..n], wildcard, text, |text|);
    }
  }
}
