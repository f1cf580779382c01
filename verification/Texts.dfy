// Rust strings as sequences of Unicode scalar values: byte lengths, words, and the one-line form
// that summaries use.

module Texts {
  import opened Basics

  // Bytes.

  /** The length of the character in UTF-8 (section 3 of RFC 3629). */
  function CharBytes(c: char): (n: nat)
    ensures 1 <= n <= 4
  {
    if c as int < 0x80 then 1 else if c as int < 0x800 then 2 else if c as int < 0x1_0000 then 3 else 4
  }

  function ByteLen(text: string): nat {
    if text == [] then 0 else CharBytes(text[0]) + ByteLen(text[1..])
  }

  lemma {:induction false} ByteLenConcat(a: string, b: string)
    ensures ByteLen(a + b) == ByteLen(a) + ByteLen(b)
  {
    if a == [] {
      assert a + b == b;
    } else {
      assert (a + b)[1..] == a[1..] + b;
      ByteLenConcat(a[1..], b);
    }
  }

  lemma {:induction false} ByteLenBounds(text: string)
    ensures |text| <= ByteLen(text) <= 4 * |text|
  {
    if text != [] {
      ByteLenBounds(text[1..]);
    }
  }

  lemma {:induction false} AsciiByteLen(text: string)
    requires forall i: nat | i < |text| :: text[i] as int < 0x80
    ensures ByteLen(text) == |text|
  {
    if text != [] {
      AsciiByteLen(text[1..]);
    }
  }

  /** How many leading characters fit into `limit` bytes. */
  function CharsWithin(text: string, limit: nat): (count: nat)
    ensures count <= |text|
    ensures ByteLen(text[..count]) <= limit
    ensures count < |text| ==> ByteLen(text[..count + 1]) > limit
    decreases |text|
  {
    if text == [] || CharBytes(text[0]) > limit then
      assert text != [] ==> ByteLen(text[..1]) == CharBytes(text[0]) by {
        if text != [] { assert text[..1][1..] == []; }
      }
      0
    else
      var rest := CharsWithin(text[1..], limit - CharBytes(text[0]));
      assert text[..rest + 1][1..] == text[1..][..rest];
      assert rest + 1 < |text| ==> text[..rest + 2][1..] == text[1..][..rest + 1];
      rest + 1
  }

  /** `is_char_boundary`: some whole number of leading characters takes exactly `offset` bytes. */
  predicate IsCharBoundary(text: string, offset: nat) {
    ByteLen(text[..CharsWithin(text, offset)]) == offset
  }

  lemma {:induction false} PrefixesGrow(text: string, i: nat, j: nat)
    requires i < j <= |text|
    ensures ByteLen(text[..i]) < ByteLen(text[..j])
  {
    assert text[..j] == text[..i] + text[i..j];
    ByteLenConcat(text[..i], text[i..j]);
    ByteLenBounds(text[i..j]);
  }

  /** Backing off a byte from a place that is no boundary loses no character. */
  lemma BackOff(text: string, offset: nat)
    requires 0 < offset && !IsCharBoundary(text, offset)
    ensures CharsWithin(text, offset - 1) == CharsWithin(text, offset)
  {
    var near, far := CharsWithin(text, offset - 1), CharsWithin(text, offset);
    if near < far {
      if near + 1 < far {
        PrefixesGrow(text, near + 1, far);
      }
    } else if far < near {
      PrefixesGrow(text, far + 1, near);
    }
  }

  // Words.

  /** The Unicode White_Space property, as `char::is_whitespace` has it. */
  predicate IsWhitespace(c: char) {
    var code := c as int;
    || 0x09 <= code <= 0x0D || code == 0x20 || code == 0x85 || code == 0xA0 || code == 0x1680
    || 0x2000 <= code <= 0x200A || code == 0x2028 || code == 0x2029 || code == 0x202F || code == 0x205F
        || code == 0x3000
  }

  /** The length of the leading run of non-whitespace characters. */
  function WordLength(text: string): (n: nat)
    ensures n <= |text|
    ensures forall i: nat | i < n :: !IsWhitespace(text[i])
    ensures n < |text| ==> IsWhitespace(text[n])
    ensures text != [] && !IsWhitespace(text[0]) ==> n > 0
    decreases |text|
  {
    if text == [] || IsWhitespace(text[0]) then 0 else 1 + WordLength(text[1..])
  }

  /** `split_whitespace`. */
  function Words(text: string): (words: seq<string>)
    ensures forall i: nat | i < |words| :: IsWord(words[i])
    decreases |text|
  {
    if text == [] then []
    else if IsWhitespace(text[0]) then Words(text[1..])
    else var n := WordLength(text); [text[..n]] + Words(text[n..])
  }

  predicate IsWord(word: string) {
    word != [] && forall i: nat | i < |word| :: !IsWhitespace(word[i])
  }

  /** `join(" ")`. */
  function Join(words: seq<string>): string {
    if words == [] then []
    else if |words| == 1 then words[0]
    else words[0] + " " + Join(words[1..])
  }

  /** Words separated by single spaces, with nothing around them. */
  predicate Tidy(text: string) {
    && (forall i: nat | i < |text| && IsWhitespace(text[i]) :: text[i] == ' ' && 0 < i < |text| - 1)
    && (forall i: nat | 0 < i < |text| && IsWhitespace(text[i]) :: !IsWhitespace(text[i - 1]))
  }

  lemma {:induction false} JoinIsTidy(words: seq<string>)
    requires forall i: nat | i < |words| :: IsWord(words[i])
    ensures Tidy(Join(words))
    ensures words != [] ==> Join(words) != [] && !IsWhitespace(Join(words)[0])
    decreases |words|
  {
    if |words| >= 2 {
      var head, tail := words[0], Join(words[1..]);
      JoinIsTidy(words[1..]);
      var text := head + " " + tail;
      forall i: nat | i < |head| ensures !IsWhitespace(text[i]) {
        assert text[i] == head[i];
      }
      forall i: nat | i < |text| && IsWhitespace(text[i])
        ensures text[i] == ' ' && 0 < i < |text| - 1 && !IsWhitespace(text[i - 1])
      {
        if i > |head| {
          assert text[i] == tail[i - |head| - 1];
          assert i - |head| - 1 > 0;
          assert text[i - 1] == tail[i - |head| - 2];
        }
      }
    }
  }

  lemma TidyConcat(a: string, b: string)
    requires Tidy(a) && Tidy(b) && a != [] && b != []
    ensures Tidy(a + " " + b)
  {
    var text := a + " " + b;
    assert !IsWhitespace(a[|a| - 1]) && !IsWhitespace(b[0]) && !IsWhitespace(b[|b| - 1]) && !IsWhitespace(a[0]);
    forall i: nat | i < |text| && IsWhitespace(text[i])
      ensures text[i] == ' ' && 0 < i < |text| - 1 && !IsWhitespace(text[i - 1])
    {
      if i < |a| {
        assert text[i] == a[i] && text[i - 1] == a[i - 1];
      } else if i > |a| {
        var j := i - |a| - 1;
        assert text[i] == b[j] && text[i - 1] == b[j - 1];
      } else {
        assert text[i - 1] == a[|a| - 1];
      }
    }
  }

  /** Printable ASCII in words separated by single spaces. */
  predicate Plain(text: string) {
    Tidy(text) && text != [] && forall i: nat | i < |text| :: text[i] as int < 0x80
  }

  predicate SpacedAt(text: string, i: nat, j: nat, k: nat) {
    forall m: nat | m < |text| :: if m == i || m == j || m == k then text[m] == ' ' else '!' <= text[m] <= '~'
  }

  lemma SpacedIsPlain(text: string, i: nat, j: nat, k: nat)
    requires SpacedAt(text, i, j, k) && 0 < i <= j <= k < |text| - 1 && i + 1 != j && j + 1 != k
    ensures Plain(text)
  {
  }

  lemma OneWordIsPlain(text: string)
    requires text != [] && forall i: nat | i < |text| :: '!' <= text[i] <= '~'
    ensures Plain(text)
  {
  }

  lemma PlainConcat(a: string, b: string)
    requires Plain(a) && Plain(b)
    ensures Plain(a + " " + b)
  {
    TidyConcat(a, b);
  }

  /** The first word of a text that starts with one, and what follows it. */
  lemma CutWord(text: string) returns (word: string, rest: string)
    requires text != [] && !IsWhitespace(text[0])
    ensures text == word + rest && IsWord(word) && (rest == [] || IsWhitespace(rest[0]))
    ensures word == text[..WordLength(text)] && rest == text[WordLength(text)..]
  {
    word, rest := text[..WordLength(text)], text[WordLength(text)..];
  }

  lemma TidyRest(word: string, rest: string)
    requires Tidy(word + rest) && IsWord(word) && rest != [] && IsWhitespace(rest[0])
    ensures rest[0] == ' ' && |rest| > 1 && !IsWhitespace(rest[1]) && Tidy(rest[1..])
  {
    var text, later := word + rest, rest[1..];
    assert text[|word|] == rest[0];
    assert text[|word| + 1] == rest[1];
    forall i: nat | i < |later| && IsWhitespace(later[i])
      ensures later[i] == ' ' && 0 < i < |later| - 1 && !IsWhitespace(later[i - 1])
    {
      assert later[i] == text[|word| + 1 + i];
      assert i > 0 && later[i - 1] == text[|word| + i];
    }
  }

  lemma {:induction false} TidyIsFixed(text: string)
    requires Tidy(text)
    ensures Join(Words(text)) == text
    decreases |text|
  {
    if text != [] {
      assert !IsWhitespace(text[0]);
      var word, rest := CutWord(text);
      WordThenRest(word, rest);
      if rest != [] {
        TidyRest(word, rest);
        TidyIsFixed(rest[1..]);
        TidyTwo(word, rest);
      }
    }
  }

  lemma {:induction false} TidyTwo(word: string, rest: string)
    requires |rest| > 1 && rest[0] == ' ' && !IsWhitespace(rest[1]) && Join(Words(rest[1..])) == rest[1..]
    ensures Join([word] + Words(rest)) == word + rest
  {
    var later := Words(rest[1..]);
    assert later != [];
    JoinTwo(word, later);
    Regroup(word, " ", rest[1..]);
    assert rest == " " + rest[1..];
  }

  lemma {:induction false} JoinTwo(word: string, words: seq<string>)
    requires words != []
    ensures Join([word] + words) == word + " " + Join(words)
  {
    assert ([word] + words)[1..] == words;
  }

  lemma {:induction false} WordsOfJoin(words: seq<string>)
    requires forall i: nat | i < |words| :: IsWord(words[i])
    ensures Words(Join(words)) == words
    decreases |words|
  {
    if words != [] {
      var head := words[0];
      assert IsWord(head);
      if |words| == 1 {
        WordThenRest(head, []);
        assert head + [] == head;
      } else {
        WordsOfJoin(words[1..]);
        WordThenRest(head, " " + Join(words[1..]));
        assert head + (" " + Join(words[1..])) == Join(words);
        assert (" " + Join(words[1..]))[1..] == Join(words[1..]);
      }
    }
  }

  lemma {:induction false} WordThenRest(word: string, rest: string)
    requires IsWord(word) && (rest == [] || IsWhitespace(rest[0]))
    ensures Words(word + rest) == [word] + Words(rest)
  {
    WordLengthAt(word, rest);
    assert !IsWhitespace((word + rest)[0]);
    assert (word + rest)[..|word|] == word && (word + rest)[|word|..] == rest;
  }

  lemma {:induction false} WordLengthAt(word: string, rest: string)
    requires forall i: nat | i < |word| :: !IsWhitespace(word[i])
    requires rest == [] || IsWhitespace(rest[0])
    ensures WordLength(word + rest) == |word|
    decreases |word|
  {
    if word == [] {
      assert word + rest == rest;
    } else {
      assert !IsWhitespace(word[0]) && (word + rest)[1..] == word[1..] + rest;
      WordLengthAt(word[1..], rest);
    }
  }

  lemma {:induction false} SplitAfterWord(word: string, rest: string, longer: string, b: string)
    requires IsWord(word) && (rest == [] || IsWhitespace(rest[0])) && (longer == [] || IsWhitespace(longer[0]))
    requires Words(longer) == Words(rest) + Words(b)
    ensures Words(word + longer) == Words(word + rest) + Words(b)
  {
    WordThenRest(word, rest);
    WordThenRest(word, longer);
    Regroup([word], Words(rest), Words(b));
  }

  /** A whitespace character always separates words. */
  lemma {:induction false} WordsSplit(a: string, c: char, b: string)
    requires IsWhitespace(c)
    ensures Words(a + [c] + b) == Words(a) + Words(b)
    decreases |a|
  {
    if a == [] {
      assert (a + [c] + b)[1..] == b;
    } else if IsWhitespace(a[0]) {
      WordsSplit(a[1..], c, b);
      assert (a + [c] + b)[1..] == a[1..] + [c] + b;
    } else {
      var word, rest := CutWord(a);
      WordsSplit(rest, c, b);
      SplitAfterWord(word, rest, rest + [c] + b, b);
      RegroupFour(word, rest, [c], b);
    }
  }

  lemma {:induction false} GrowAfterWord(word: string, rest: string, longer: string)
    requires IsWord(word) && rest != [] && IsWhitespace(rest[0]) && rest <= longer
    requires |Words(rest)| <= |Words(longer)|
    ensures |Words(word + rest)| <= |Words(word + longer)|
  {
    WordThenRest(word, rest);
    WordThenRest(word, longer);
  }

  lemma {:induction false} WordsGrow(a: string, b: string)
    requires a <= b
    ensures |Words(a)| <= |Words(b)|
    decreases |a|
  {
    if a != [] {
      if IsWhitespace(a[0]) {
        WordsGrow(a[1..], b[1..]);
      } else {
        var word, rest := CutWord(a);
        if rest == [] {
          WordThenRest(word, rest);
          assert Words(b) != [];
        } else {
          var longer := b[|word|..];
          assert b == word + longer;
          WordsGrow(rest, longer);
          GrowAfterWord(word, rest, longer);
        }
      }
    }
  }

  // The token estimate.

  /** One token for every four bytes of a word, rounded up. */
  function WordTokens(word: string): (tokens: nat)
    ensures word != [] ==> 1 <= tokens && 2 * tokens <= ByteLen(word) + 1
  {
    ByteLenBounds(word);
    Max((ByteLen(word) + 3) / 4, 1)
  }

  function Sum(values: seq<nat>): nat {
    if values == [] then 0 else values[0] + Sum(values[1..])
  }

  /** `fold(start, usize::saturating_add)`. */
  function SaturatingSum(start: U64, values: seq<nat>): U64
    decreases |values|
  {
    if values == [] then start else SaturatingSum(SaturatingAdd(start, values[0]), values[1..])
  }

  lemma {:induction false} SaturatingSumIsCapped(start: U64, values: seq<nat>)
    ensures SaturatingSum(start, values) == Min(start + Sum(values), MAX_U64)
    decreases |values|
  {
    if values != [] {
      SaturatingSumIsCapped(SaturatingAdd(start, values[0]), values[1..]);
    }
  }

  function WordCosts(words: seq<string>): seq<nat> {
    if words == [] then [] else [WordTokens(words[0])] + WordCosts(words[1..])
  }

  /** `estimate_text_tokens`. */
  function TextTokens(text: string): U64 {
    SaturatingSum(0, WordCosts(Words(text)))
  }

  /** Every word but the last is followed by a byte that costs nothing, so two bytes pay for a token. */
  lemma {:induction false} HalfATokenAByte(text: string)
    ensures 2 * Sum(WordCosts(Words(text))) <= ByteLen(text) + 1
    decreases |text|
  {
    if text != [] {
      if IsWhitespace(text[0]) {
        HalfATokenAByte(text[1..]);
      } else {
        var n := WordLength(text);
        var word, rest := text[..n], text[n..];
        assert text == word + rest;
        ByteLenConcat(word, rest);
        assert WordCosts(Words(text)) == [WordTokens(word)] + WordCosts(Words(rest)) by {
          assert ([word] + Words(rest))[1..] == Words(rest);
        }
        if rest != [] {
          HalfATokenAByte(rest[1..]);
        }
      }
    }
  }

  lemma {:induction false} TextTokensBound(text: string)
    ensures 2 * TextTokens(text) <= ByteLen(text) + 1
  {
    HalfATokenAByte(text);
    CappedAtMost(WordCosts(Words(text)));
  }

  lemma {:induction false} CappedAtMost(values: seq<nat>)
    ensures SaturatingSum(0, values) <= Sum(values)
  {
    SaturatingSumIsCapped(0, values);
  }

  lemma {:induction false} EveryWordCosts(words: seq<string>)
    requires forall i: nat | i < |words| :: IsWord(words[i])
    ensures |words| <= Sum(WordCosts(words))
  {
    if words != [] {
      EveryWordCosts(words[1..]);
    }
  }

  /** No text of `count` words is estimated below `count` tokens. */
  lemma {:induction false} WordsAreCounted(text: string, count: nat)
    requires count <= |Words(text)| && count <= MAX_U64
    ensures count <= TextTokens(text)
  {
    EveryWordCosts(Words(text));
    SaturatingSumIsCapped(0, WordCosts(Words(text)));
  }
}
