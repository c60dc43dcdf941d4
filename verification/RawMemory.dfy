/** Memory as bytes, and the universal header laid out in it field by field, little end
    first. */
module RawMemory {
  import opened SystemMemory

  newtype Byte = b: int | 0 <= b < 256

  datatype Memory = Memory(bytes: int -> Byte)

  /** The tier, state and offset of a header. */
  datatype Mark = Mark(tier: nat, state: nat, offset: nat)

  // -------------------------------------------------------------------- numbers as bytes

  /** The i-th byte of w. */
  function Digit(w: nat, i: nat): Byte {
    if i == 0 then (w % 256) as Byte else Digit(w / 256, i - 1)
  }

  function Pow256(n: nat): nat {
    if n == 0 then 1 else 256 * Pow256(n - 1)
  }

  /** The number in the bytes from a up to e. */
  function Read(m: Memory, a: int, e: int): nat
    decreases e - a
  {
    if e <= a then 0 else m.bytes(a) as nat + 256 * Read(m, a + 1, e)
  }

  /** The n bytes at a are the low bytes of w. */
  ghost predicate Holds(m: Memory, a: int, n: nat, w: nat) {
    forall i :: 0 <= i < n ==> m.bytes(a + i) == Digit(w, i)
  }

  /** Reading gives back what was written, as far as it fits. */
  lemma {:induction false} ReadBack(m: Memory, a: int, n: nat, w: nat)
    requires Holds(m, a, n, w) && w < Pow256(n)
    ensures Read(m, a, a + n) == w
    decreases n
  {
    if n > 0 {
      assert m.bytes(a + 0) == Digit(w, 0);
      forall i | 0 <= i < n - 1
        ensures m.bytes(a + 1 + i) == Digit(w / 256, i)
      {
        assert m.bytes(a + (i + 1)) == Digit(w, i + 1);
      }
      ReadBack(m, a + 1, n - 1, w / 256);
    }
  }

  lemma {:induction false} ReadSame(m: Memory, m': Memory, a: int, e: int)
    requires forall x :: a <= x < e ==> m'.bytes(x) == m.bytes(x)
    ensures Read(m', a, e) == Read(m, a, e)
    decreases e - a
  {
    if a < e { ReadSame(m, m', a + 1, e); }
  }

  lemma FieldLimits()
    ensures Pow256(2) == 0x1_0000 && Pow256(4) == 0x1_0000_0000 && Pow256(8) == 0x1_0000_0000_0000_0000
  {
    assert Pow256(4) == 65536 * Pow256(2) && Pow256(6) == 65536 * Pow256(4);
  }

  // ------------------------------------------------------------------------------ writes

  /** memset */
  function Fill(m: Memory, lo: int, n: nat, value: Byte): Memory {
    Memory(x => if lo <= x < lo + n then value else m.bytes(x))
  }

  /** memcpy of n bytes from src to dst. */
  function Copy(m: Memory, dst: int, src: int, n: nat): Memory {
    Memory(x => if dst <= x < dst + n then m.bytes(src + (x - dst)) else m.bytes(x))
  }

  /** The bytes of a header: eight of the size, two of the tier, two of the state, four of
      the offset. */
  function HeaderByte(size: nat, mark: Mark, i: nat): Byte {
    if i < 8 then Digit(size, i)
    else if i < 10 then Digit(mark.tier, i - 8)
    else if i < 12 then Digit(mark.state, i - 10)
    else Digit(mark.offset, i - 12)
  }

  function PutHeader(m: Memory, h: int, size: nat, mark: Mark): Memory {
    Memory(x => if h <= x < h + 16 then HeaderByte(size, mark, x - h) else m.bytes(x))
  }

  /** Store the state in the header at h. */
  function SetState(m: Memory, h: int, state: nat): Memory {
    Memory(x => if h + 10 <= x < h + 12 then Digit(state, x - (h + 10)) else m.bytes(x))
  }

  // ------------------------------------------------------------------------------- reads

  function SizeAt(m: Memory, h: int): nat {
    Read(m, h, h + 8)
  }

  function TierAt(m: Memory, h: int): nat {
    Read(m, h + 8, h + 10)
  }

  function StateAt(m: Memory, h: int): nat {
    Read(m, h + 10, h + 12)
  }

  function OffsetAt(m: Memory, h: int): nat {
    Read(m, h + 12, h + 16)
  }

  /** Where the fields lie, byte by byte. */
  lemma FieldsInBytes(m: Memory, h: int)
    ensures TierAt(m, h) == m.bytes(h + 8) as nat + 256 * m.bytes(h + 9) as nat
    ensures StateAt(m, h) == m.bytes(h + 10) as nat + 256 * m.bytes(h + 11) as nat
    ensures OffsetAt(m, h) == m.bytes(h + 12) as nat + 256 * (m.bytes(h + 13) as nat + 256 * Read(m, h + 14, h + 16))
    ensures SizeAt(m, h) == m.bytes(h) as nat + 256 * Read(m, h + 1, h + 8)
  {
    assert Read(m, h + 9, h + 10) == m.bytes(h + 9) as nat + 256 * Read(m, h + 10, h + 10);
    assert Read(m, h + 11, h + 12) == m.bytes(h + 11) as nat + 256 * Read(m, h + 12, h + 12);
    assert Read(m, h + 13, h + 16) == m.bytes(h + 13) as nat + 256 * Read(m, h + 14, h + 16);
  }

  ghost predicate HeaderAt(m: Memory, h: int, size: nat, mark: Mark) {
    forall x :: h <= x < h + 16 ==> m.bytes(x) == HeaderByte(size, mark, x - h)
  }

  ghost predicate Fitting(size: nat, mark: Mark) {
    size < 0x1_0000_0000_0000_0000 && mark.tier < 0x1_0000 && mark.state < 0x1_0000 && mark.offset < 0x1_0000_0000
  }

  /** Every field of a header reads back as it was stored. */
  lemma HeaderReads(m: Memory, h: int, size: nat, mark: Mark)
    requires HeaderAt(m, h, size, mark) && Fitting(size, mark)
    ensures SizeAt(m, h) == size && TierAt(m, h) == mark.tier
    ensures StateAt(m, h) == mark.state && OffsetAt(m, h) == mark.offset
  {
    FieldLimits();
    ReadBack(m, h, 8, size);
    ReadBack(m, h + 8, 2, mark.tier);
    ReadBack(m, h + 10, 2, mark.state);
    ReadBack(m, h + 12, 4, mark.offset);
  }

  /** Both memories hold the same from lo up to hi. */
  ghost predicate Same(m: Memory, m': Memory, lo: int, hi: int) {
    forall x :: lo <= x < hi ==> m.bytes(x) == m'.bytes(x)
  }

  /** m' differs from m between lo and hi only. */
  ghost predicate Only(m: Memory, m': Memory, lo: int, hi: int) {
    forall a, b {:trigger Same(m, m', a, b)} :: !Overlap(a, b, lo, hi) ==> Same(m, m', a, b)
  }

  lemma SameTrans(m: Memory, m': Memory, m'': Memory, lo: int, hi: int)
    requires Same(m, m', lo, hi) && Same(m', m'', lo, hi)
    ensures Same(m, m'', lo, hi)
  {}

  lemma OnlyTrans(m: Memory, m': Memory, m'': Memory, lo: int, hi: int)
    requires Only(m, m', lo, hi) == true && Only(m', m'', lo, hi) == true
    ensures Only(m, m'', lo, hi) == true
  {
    forall a, b | !Overlap(a, b, lo, hi)
      ensures Same(m, m'', a, b)
    {
      assert Same(m, m', a, b) && Same(m', m'', a, b);
      SameTrans(m, m', m'', a, b);
    }
  }

  lemma OnlyWiden(m: Memory, m': Memory, lo: int, hi: int, lo': int, hi': int)
    requires Only(m, m', lo, hi) && lo' <= lo && hi <= hi' && lo < hi
    ensures Only(m, m', lo', hi')
  {
    forall a, b | !Overlap(a, b, lo', hi')
      ensures Same(m, m', a, b)
    {}
  }

  lemma PutHeaderOnly(m: Memory, h: int, size: nat, mark: Mark)
    ensures Only(m, PutHeader(m, h, size, mark), h, h + 16)
    ensures HeaderAt(PutHeader(m, h, size, mark), h, size, mark)
  {}

  lemma FillOnly(m: Memory, lo: int, n: nat, value: Byte)
    ensures Only(m, Fill(m, lo, n, value), lo, lo + n)
  {}

  lemma CopyOnly(m: Memory, dst: int, src: int, n: nat)
    ensures Only(m, Copy(m, dst, src, n), dst, dst + n)
  {}

  lemma SetStateOnly(m: Memory, h: int, state: nat)
    ensures Only(m, SetState(m, h, state), h + 8, h + 16)
    ensures TierAt(SetState(m, h, state), h) == TierAt(m, h)
    ensures state < 0x1_0000 ==> StateAt(SetState(m, h, state), h) == state
  {
    var m' := SetState(m, h, state);
    ReadSame(m, m', h + 8, h + 10);
    FieldLimits();
    if state < 0x1_0000 { ReadBack(m', h + 10, 2, state); }
  }

  lemma HeaderKept(m: Memory, m': Memory, h: int, size: nat, mark: Mark, lo: int, hi: int)
    requires HeaderAt(m, h, size, mark) && Only(m, m', lo, hi) && !Overlap(h, h + 16, lo, hi)
    ensures HeaderAt(m', h, size, mark)
  {
    assert Same(m, m', h, h + 16);
  }

  // ---------------------------------------------------------------------------- contents

  /** The n bytes at p. */
  function Contents(m: Memory, p: int, n: nat): seq<Byte> {
    seq(n, i => m.bytes(p + i))
  }

  lemma SameContents(m: Memory, m': Memory, lo: int, hi: int, p: int, n: nat)
    requires Same(m, m', lo, hi) && lo <= p && p + n <= hi
    ensures Contents(m', p, n) == Contents(m, p, n)
  {}

  lemma CopyContents(m: Memory, dst: int, src: int, n: nat)
    ensures Contents(Copy(m, dst, src, n), dst, n) == Contents(m, src, n)
  {}
}
