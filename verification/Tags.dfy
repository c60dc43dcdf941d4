/** The packed boundary tag of a medium block (MediumBlock), its bin number, and
    the layout constants of the segment heap. */
module Tags {
  import opened Words

  const SEGMENT_SIZE: nat := 0x40_0000
  const BLOCK_HEADER_SIZE: nat := 16
  const NODE_OFFSET: nat := 32
  const MIN_BLOCK_SIZE: nat := 48
  const BIN_COUNT: nat := 18

  const FREE_FLAG: nat := 1
  const FIRST_FLAG: nat := 2
  const LAST_FLAG: nat := 4
  const FLAG_MASK: nat := 15

  // The member functions of MediumBlock, on the word sizeAndFlags.

  function TagSize(word: nat): nat {
    And(word, Complement(FLAG_MASK))
  }

  function TagSetSize(word: nat, size: nat): nat {
    Or(And(word, FLAG_MASK), size)
  }

  predicate TagHas(word: nat, flag: nat) {
    And(word, flag) != 0
  }

  function TagSetFlag(word: nat, flag: nat, value: bool): nat
    requires flag < WORD
  {
    if value then Or(word, flag) else And(word, Complement(flag))
  }

  // The meaning of a tag word.

  function Num(b: bool): nat { if b then 1 else 0 }

  function Pack(size: nat, free: bool, first: bool, last: bool): nat {
    size + Num(free) + 2 * Num(first) + 4 * Num(last)
  }

  ghost predicate Packable(size: nat) {
    size % 16 == 0 && size + 16 <= WORD
  }

  lemma PackedBits(size: nat, free: bool, first: bool, last: bool)
    requires Packable(size)
    ensures Bit(Pack(size, free, first, last), 0) == free
    ensures Bit(Pack(size, free, first, last), 1) == first
    ensures Bit(Pack(size, free, first, last), 2) == last
  {
    var w, q := Pack(size, free, first, last), size / 16;
    assert w == 16 * q + Num(free) + 2 * Num(first) + 4 * Num(last);
    assert w / 2 == 8 * q + Num(first) + 2 * Num(last);
    assert w / 2 / 2 == 4 * q + Num(last);
    assert Bit(w, 2) == Bit(w / 2, 1) == Bit(w / 2 / 2, 0);
  }

  lemma FlagPowers()
    ensures Pow2(0) == FREE_FLAG && Pow2(1) == FIRST_FLAG && Pow2(2) == LAST_FLAG && Pow2(4) == 16
  {}

  /** Every field of a packed word reads back as it was stored. */
  lemma PackedReads(size: nat, free: bool, first: bool, last: bool)
    requires Packable(size)
    ensures TagSize(Pack(size, free, first, last)) == size
    ensures TagHas(Pack(size, free, first, last), FREE_FLAG) == free
    ensures TagHas(Pack(size, free, first, last), FIRST_FLAG) == first
    ensures TagHas(Pack(size, free, first, last), LAST_FLAG) == last
  {
    var word := Pack(size, free, first, last);
    FlagPowers();
    PackedBits(size, free, first, last);
    TestBit(word, 0);
    TestBit(word, 1);
    TestBit(word, 2);
    PackedReadsSize(size, free, first, last);
  }

  lemma PackedReadsSize(size: nat, free: bool, first: bool, last: bool)
    requires Packable(size)
    ensures TagSize(Pack(size, free, first, last)) == size
  {
    var word := Pack(size, free, first, last);
    var w := WordWidth();
    FlagPowers();
    ComplementIsBitwise(FLAG_MASK, w);
    FourBelow(w);
    AndHighMask(word, 4, w);
    PackedLow(size, free, first, last);
  }

  lemma PackedLow(size: nat, free: bool, first: bool, last: bool)
    requires Packable(size)
    ensures var word := Pack(size, free, first, last); word < WORD && word - word % 16 == size
  {}

  lemma FourBelow(w: nat)
    requires Pow2(w) == WORD
    ensures 4 <= w
  {
    if w < 4 { Pow2Monotone(w, 4); }
  }

  /** setSize replaces the size and keeps the flags. */
  lemma PackedSetSize(size: nat, free: bool, first: bool, last: bool, size': nat)
    requires Packable(size) && Packable(size')
    ensures TagSetSize(Pack(size, free, first, last), size') == Pack(size', free, first, last)
  {
    var word := Pack(size, free, first, last);
    FlagPowers();
    AndLowMask(word, 4);
    PackedLow(size, free, first, last);
    OrDisjoint(word % 16, size', 4);
  }

  /** setFlag replaces exactly one flag. */
  lemma PackedSetFlag(size: nat, free: bool, first: bool, last: bool, value: bool)
    requires Packable(size)
    ensures TagSetFlag(Pack(size, free, first, last), FREE_FLAG, value) == Pack(size, value, first, last)
    ensures TagSetFlag(Pack(size, free, first, last), FIRST_FLAG, value) == Pack(size, free, value, last)
    ensures TagSetFlag(Pack(size, free, first, last), LAST_FLAG, value) == Pack(size, free, first, value)
  {
    var word := Pack(size, free, first, last);
    var w := WordWidth();
    FlagPowers();
    FourBelow(w);
    PackedBits(size, free, first, last);
    if value {
      SetBit(word, 0);
      SetBit(word, 1);
      SetBit(word, 2);
    } else {
      ComplementIsBitwise(1, w);
      ComplementIsBitwise(2, w);
      ComplementIsBitwise(4, w);
      ClearBit(word, 0, w);
      ClearBit(word, 1, w);
      ClearBit(word, 2, w);
    }
  }

  // -------------------------------------------------------------------- bins

  function BinIndex(size: nat): (i: nat)
    ensures i < BIN_COUNT
  {
    var width := BitWidth(size);
    var raw := if width > 6 then width - 6 else 0;
    if raw < BIN_COUNT - 1 then raw else BIN_COUNT - 1
  }

  lemma BinIndexMonotone(a: nat, b: nat)
    requires a <= b
    ensures BinIndex(a) <= BinIndex(b)
  {
    BitWidthMonotone(a, b);
  }

  /** Bin i holds exactly the block sizes from 2^(i+5) up to 2^(i+6), and the first bin all
      that are smaller. */
  lemma BinHolds(i: nat, size: nat)
    requires i < 18 && 48 <= size <= 0x40_0000
    ensures BinIndex(size) == i <==> (i == 0 || Pow2(i + 5) <= size) && size < Pow2(i + 6)
  {
    BitWidthBounds(size);
    var w := BitWidth(size);
    SizePowers();
    if w <= 6 { Pow2Monotone(w, 6); } else { Pow2Monotone(6, w - 1); }
    if w > 23 { Pow2Monotone(23, w - 1); }
    if i + 6 < w { Pow2Monotone(i + 6, w - 1); } else if w < i + 6 { Pow2Monotone(w, i + 5); }
  }

  lemma SizePowers()
    ensures Pow2(6) == 64 && Pow2(23) == 0x80_0000
  {
    assert Pow2(15) == 0x8000;
    Pow2Add(15, 8);
  }

  /** Two block sizes of one bin differ by less than a factor of two. */
  lemma SameBinWithinTwice(a: nat, b: nat)
    requires MIN_BLOCK_SIZE <= a <= SEGMENT_SIZE && MIN_BLOCK_SIZE <= b <= SEGMENT_SIZE
    requires BinIndex(a) == BinIndex(b)
    ensures a < 2 * b
  {
    BitWidthBounds(a);
    BitWidthBounds(b);
    var x, y := BitWidth(a), BitWidth(b);
    assert Pow2(6) == 64;
    if x <= 6 {
      Pow2Monotone(x, 6);
    } else if x < 23 {
      assert x == y;
      assert Pow2(x) == 2 * Pow2(x - 1);
    } else {
      TopBin(y);
    }
  }

  lemma TopBin(y: nat)
    requires y >= 23
    ensures Pow2(y - 1) >= SEGMENT_SIZE
  {
    Pow2Monotone(22, y - 1);
    Pow2Add(11, 11);
    assert Pow2(11) == 2048;
  }
}
