// Well-formed UTF-8 (section 4 of RFC 3629), and where it may be cut.

module Utf8 {
  import opened Basics
  import opened Texts

  predicate IsTail(b: Byte) {
    0x80 <= b <= 0xBF
  }

  predicate TailsFrom(bytes: Bytes, from: nat, to: nat)
    requires from <= to <= |bytes|
  {
    forall i: nat | from <= i < to :: IsTail(bytes[i])
  }

  /** The range the second byte must lie in after a given first byte. */
  predicate SecondAllowed(first: Byte, second: Byte) {
    if first == 0xE0 then 0xA0 <= second <= 0xBF
    else if first == 0xED then 0x80 <= second <= 0x9F
    else if first == 0xF0 then 0x90 <= second <= 0xBF
    else if first == 0xF4 then 0x80 <= second <= 0x8F
    else IsTail(second)
  }

  /** The length its first byte announces; zero for a byte that starts nothing. */
  function Announced(first: Byte): (n: nat)
    ensures n <= 4 && (n == 1 <==> first < 0x80)
  {
    if first < 0x80 then 1
    else if 0xC2 <= first <= 0xDF then 2
    else if 0xE0 <= first <= 0xEF then 3
    else if 0xF0 <= first <= 0xF4 then 4
    else 0
  }

  /** The bytes begin with one whole character, of this many bytes. */
  predicate StartsWithChar(bytes: Bytes, n: nat) {
    && 0 < n <= |bytes|
    && n == Announced(bytes[0])
    && (n > 1 ==> SecondAllowed(bytes[0], bytes[1]))
    && TailsFrom(bytes, 1, n)
  }

  predicate Valid(bytes: Bytes) {
    bytes != [] ==>
      var n := Announced(bytes[0]);
      StartsWithChar(bytes, n) && Valid(bytes[n..])
  }

  lemma CharOfConcat(a: Bytes, b: Bytes)
    requires a != [] && Announced(a[0]) <= |a|
    ensures var n := Announced(a[0]);
            (a + b)[0] == a[0] && (StartsWithChar(a + b, n) <==> StartsWithChar(a, n)) && (a + b)[n..] == a[n..] + b
  {
    var n := Announced(a[0]);
    assert forall i: nat | i < n :: (a + b)[i] == a[i];
    assert (a + b)[n..] == a[n..] + b;
  }

  lemma {:induction false} ValidConcat(a: Bytes, b: Bytes)
    requires Valid(a) && Valid(b)
    ensures Valid(a + b)
    decreases |a|
  {
    if a == [] {
      assert a + b == b;
    } else {
      CharOfConcat(a, b);
      ValidConcat(a[Announced(a[0])..], b);
    }
  }

  /** A place between characters: the end, before a byte that is no tail, or behind an ASCII byte. */
  predicate Cuttable(a: Bytes, b: Bytes) {
    a == [] || b == [] || !IsTail(b[0]) || a[|a| - 1] < 0x80
  }

  /** A cut inside a character leaves a tail byte behind it and no ASCII byte before it. */
  lemma SplitCharTails(a: Bytes, b: Bytes, n: nat)
    requires a != [] && b != [] && n == Announced(a[0]) && StartsWithChar(a + b, n)
    ensures |a| < n ==> IsTail(b[0]) && a[|a| - 1] >= 0x80
  {
    if |a| < n {
      assert IsTail((a + b)[|a|]);
      if |a| > 1 {
        assert IsTail((a + b)[|a| - 1]);
      }
    }
  }

  /** Well-formed text stays well formed on both sides of such a place. */
  lemma {:induction false} ValidCut(a: Bytes, b: Bytes)
    requires Valid(a + b) && Cuttable(a, b)
    ensures Valid(a) && Valid(b)
    decreases |a|
  {
    if a == [] {
      assert a + b == b;
    } else if b == [] {
      assert a + b == a;
    } else {
      var n := Announced(a[0]);
      assert (a + b)[0] == a[0];
      SplitCharTails(a, b, n);
      CharOfConcat(a, b);
      if n < |a| {
        assert a[n..][|a[n..]| - 1] == a[|a| - 1];
      }
      ValidCut(a[n..], b);
    }
  }

  lemma {:induction false} AsciiIsValid(bytes: Bytes)
    requires forall i: nat | i < |bytes| :: bytes[i] < 0x80
    ensures Valid(bytes)
  {
    if bytes != [] {
      AsciiIsValid(bytes[1..]);
    }
  }

  // The same, by encoding (section 3 of RFC 3629).

  function EncodeChar(c: char): (bytes: Bytes)
    ensures |bytes| == CharBytes(c)
  {
    var code := c as int;
    if code < 0x80 then [code]
    else if code < 0x800 then [0xC0 + code / 0x40, 0x80 + code % 0x40]
    else if code < 0x1_0000 then [0xE0 + code / 0x1000, 0x80 + code / 0x40 % 0x40, 0x80 + code % 0x40]
    else [0xF0 + code / 0x4_0000, 0x80 + code / 0x1000 % 0x40, 0x80 + code / 0x40 % 0x40, 0x80 + code % 0x40]
  }

  function Encode(text: string): (bytes: Bytes)
    ensures |bytes| == ByteLen(text)
  {
    if text == [] then [] else EncodeChar(text[0]) + Encode(text[1..])
  }

  lemma EncodedCharIsWhole(c: char)
    ensures StartsWithChar(EncodeChar(c), CharBytes(c))
  {
    var code := c as int;
    if code >= 0x1_0000 {
      assert code < 0x11_0000;
      assert 0 < code / 0x4_0000 ==> 0xF1 <= EncodeChar(c)[0];
    }
  }

  lemma {:induction false} EncodingIsValid(text: string)
    ensures Valid(Encode(text))
  {
    if text != [] {
      var first := EncodeChar(text[0]);
      EncodedCharIsWhole(text[0]);
      EncodingIsValid(text[1..]);
      CharOfConcat(first, Encode(text[1..]));
      assert first[|first|..] == [];
    }
  }

  function CodePoint(bytes: Bytes): nat
    requires bytes != [] && StartsWithChar(bytes, Announced(bytes[0]))
  {
    var first: int := bytes[0];
    match Announced(bytes[0])
    case 1 => first
    case 2 => (first - 0xC0) * 0x40 + TailBits(bytes[1])
    case 3 => ((first - 0xE0) * 0x40 + TailBits(bytes[1])) * 0x40 + TailBits(bytes[2])
    case _ => (((first - 0xF0) * 0x40 + TailBits(bytes[1])) * 0x40 + TailBits(bytes[2])) * 0x40 + TailBits(bytes[3])
  }

  /** The six bits a tail byte carries. */
  function TailBits(b: Byte): (bits: int)
    ensures IsTail(b) ==> 0 <= bits < 0x40
  {
    b - 0x80
  }

  lemma SixBits(high: nat, low: nat)
    requires low < 0x40
    ensures (high * 0x40 + low) / 0x40 == high && (high * 0x40 + low) % 0x40 == low
  {
  }

  lemma TwoBytes(bytes: Bytes)
    requires StartsWithChar(bytes, 2)
    ensures CodePoint(bytes) / 0x40 == bytes[0] - 0xC0 && CodePoint(bytes) % 0x40 == bytes[1] - 0x80
    ensures 0x80 <= CodePoint(bytes) < 0x800
  {
    SixBits(bytes[0] as int - 0xC0, TailBits(bytes[1]));
  }

  lemma ThreeBytes(bytes: Bytes)
    requires StartsWithChar(bytes, 3)
    ensures var code := CodePoint(bytes);
            && code / 0x1000 == bytes[0] - 0xE0 && code / 0x40 % 0x40 == bytes[1] - 0x80
                && code % 0x40 == bytes[2] - 0x80
            && 0x800 <= code < 0x1_0000 && !(0xD800 <= code < 0xE000)
  {
    var high := (bytes[0] as int - 0xE0) * 0x40 + TailBits(bytes[1]);
    SixBits(bytes[0] as int - 0xE0, TailBits(bytes[1]));
    SixBits(high, TailBits(bytes[2]));
    assert CodePoint(bytes) / 0x1000 == high / 0x40;
  }

  lemma FourBytes(bytes: Bytes)
    requires StartsWithChar(bytes, 4)
    ensures var code := CodePoint(bytes);
            && code / 0x4_0000 == bytes[0] - 0xF0 && code / 0x1000 % 0x40 == bytes[1] - 0x80
            && code / 0x40 % 0x40 == bytes[2] - 0x80 && code % 0x40 == bytes[3] - 0x80
            && 0x1_0000 <= code < 0x11_0000
  {
    var high := (bytes[0] as int - 0xF0) * 0x40 + TailBits(bytes[1]);
    var middle := high * 0x40 + TailBits(bytes[2]);
    SixBits(bytes[0] as int - 0xF0, TailBits(bytes[1]));
    SixBits(high, TailBits(bytes[2]));
    SixBits(middle, TailBits(bytes[3]));
    assert CodePoint(bytes) / 0x1000 == middle / 0x40 && CodePoint(bytes) / 0x4_0000 == high / 0x40;
  }

  /** A whole character is the encoding of exactly the scalar value it spells. */
  lemma WholeCharIsEncoded(bytes: Bytes) returns (c: char)
    requires bytes != [] && StartsWithChar(bytes, Announced(bytes[0]))
    ensures c as int == CodePoint(bytes) && EncodeChar(c) == bytes[..Announced(bytes[0])]
  {
    var n := Announced(bytes[0]);
    if n == 2 {
      TwoBytes(bytes);
    } else if n == 3 {
      ThreeBytes(bytes);
    } else if n == 4 {
      FourBytes(bytes);
    }
    c := CodePoint(bytes) as char;
  }

  lemma {:induction false} EncodeCons(c: char, rest: string)
    ensures Encode([c] + rest) == EncodeChar(c) + Encode(rest)
  {
    assert ([c] + rest)[1..] == rest;
  }

  lemma PrependChar(bytes: Bytes, rest: string) returns (text: string)
    requires bytes != [] && StartsWithChar(bytes, Announced(bytes[0]))
    requires Encode(rest) == bytes[Announced(bytes[0])..]
    ensures Encode(text) == bytes
  {
    var c := WholeCharIsEncoded(bytes);
    EncodeCons(c, rest);
    text := [c] + rest;
    assert bytes == bytes[..Announced(bytes[0])] + bytes[Announced(bytes[0])..];
  }

  /** Well-formed UTF-8 is exactly what encoding produces. */
  lemma {:induction false} ValidIsEncoded(bytes: Bytes) returns (text: string)
    requires Valid(bytes)
    ensures Encode(text) == bytes
    decreases |bytes|
  {
    if bytes == [] {
      text := [];
    } else {
      var rest := ValidIsEncoded(bytes[Announced(bytes[0])..]);
      text := PrependChar(bytes, rest);
    }
  }
}
