// The set of live pattern positions, packed into five 64-bit words.

module BitWords {
  const PATTERN_WORDS: nat := 5
  const POSITIONS: nat := 64 * PATTERN_WORDS

  /** Five words, as the `[u64; PATTERN_WORDS]` a monitor carries. */
  type Words = w: seq<bv64> | |w| == PATTERN_WORDS witness [0, 0, 0, 0, 0]

  const ZERO_WORDS: Words := [0, 0, 0, 0, 0]

  function Mask(offset: nat): bv64
    requires offset < 64
  {
    (1 as bv64) << offset
  }

  function SetBit(words: Words, index: nat): Words
    requires index < POSITIONS
  {
    words[index / 64 := words[index / 64] | Mask(index % 64)]
  }

  predicate BitIsSet(words: Words, index: nat)
    requires index < POSITIONS
  {
    words[index / 64] & Mask(index % 64) != 0
  }

  /** The positions whose bit is set: the abstract value of the words. */
  function Bits(words: Words): (positions: set<nat>)
  {
    set index: nat | index < POSITIONS && BitIsSet(words, index)
  }

  lemma OrWithMask(word: bv64, i: nat, j: nat)
    requires i < 64 && j < 64
    ensures (word | Mask(i)) & Mask(j) != 0 <==> i == j || word & Mask(j) != 0
  {
    OrDistributes(word, Mask(i), Mask(j));
    MaskIsSet(j);
    if i != j {
      MasksAreApart(i, j);
    }
  }

  lemma OrDistributes(word: bv64, mask: bv64, other: bv64)
    ensures (word | mask) & other == (word & other) | (mask & other)
  {
  }

  lemma MaskIsSet(i: nat)
    requires i < 64
    ensures Mask(i) != 0
  {
  }

  lemma MasksAreApart(i: nat, j: nat)
    requires i < 64 && j < 64 && i != j
    ensures Mask(i) & Mask(j) == 0
  {
    MaskShifts(i);
    MaskShifts(j);
    ShiftsAreApart(i as bv6, j as bv6);
  }

  lemma MaskShifts(i: nat)
    requires i < 64
    ensures Mask(i) == (1 as bv64) << (i as bv6) && (i as bv6) as nat == i
  {
  }

  lemma ShiftsAreApart(x: bv6, y: bv6)
    requires x != y
    ensures ((1 as bv64) << x) & ((1 as bv64) << y) == 0
  {
  }

  lemma SetBitAt(words: Words, index: nat, other: nat)
    requires index < POSITIONS && other < POSITIONS
    ensures BitIsSet(SetBit(words, index), other) <==> other == index || BitIsSet(words, other)
  {
    if other / 64 == index / 64 {
      OrWithMask(words[index / 64], index % 64, other % 64);
    }
  }

  /** Setting one bit adds that position and touches no other, across word boundaries. */
  lemma SetBitAdds(words: Words, index: nat)
    requires index < POSITIONS
    ensures Bits(SetBit(words, index)) == Bits(words) + {index}
  {
    forall other: nat | other < POSITIONS
      ensures BitIsSet(SetBit(words, index), other) <==> other == index || BitIsSet(words, other)
    {
      SetBitAt(words, index, other);
    }
  }

  lemma ZeroIsEmpty()
    ensures Bits(ZERO_WORDS) == {}
  {
    forall index: nat | index < POSITIONS
      ensures !BitIsSet(ZERO_WORDS, index)
    {
      assert (0 as bv64) & Mask(index % 64) == 0;
    }
  }
}
