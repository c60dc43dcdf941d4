/** Where alignedAllocate puts the user pointer inside the raw block. */
module Alignment {
  import opened Folding
  import opened Words
  import opened Tiers

  const MAX_ALIGNMENT: nat := 0x4000_0000

  /** The address handed out: aligned, and beyond the raw user pointer by enough for a
      shim header. */
  function AlignedUser(address: nat, alignment: nat): nat
    requires 0 < alignment <= WORD
  {
    var a := AlignUp(address, alignment);
    if a == address then a + alignment else a
  }

  predicate AlignedTo(p: int, alignment: nat) {
    alignment > 0 && p % alignment == 0
  }

  lemma {:induction false} Pow2Over16(k: nat)
    ensures Pow2(k) > 16 ==> Pow2(k) % 16 == 0
  {
    if k >= 1 && Pow2(k - 1) > 16 {
      Pow2Over16(k - 1);
      TwiceMultiple(Pow2(k - 1));
    } else if k >= 1 && Pow2(k) > 16 {
      SixteenOnly(k - 1);
    }
  }

  lemma TwiceMultiple(n: nat)
    requires n % 16 == 0
    ensures 2 * n % 16 == 0
  {}

  lemma {:induction false} SixteenOnly(k: nat)
    requires 8 < Pow2(k) <= 16
    ensures Pow2(k) == 16
  {
    assert Pow2(0) == 1 && Pow2(1) == 2 && Pow2(2) == 4 && Pow2(3) == 8;
    assert k != 0 && k != 1 && k != 2 && k != 3;
    assert Pow2(k) == 2 * Pow2(k - 1) == 4 * Pow2(k - 2) == 8 * Pow2(k - 3) == 16 * Pow2(k - 4);
  }

  lemma PowerOver16(alignment: nat)
    requires IsPowerOfTwo(alignment) && alignment > 16
    ensures alignment % 16 == 0
  {
    var k := Exponent(alignment);
    Pow2Over16(k);
  }

  lemma MultipleIsMultipleOf16(a: nat, alignment: nat)
    requires alignment > 0 && a % alignment == 0 && alignment % 16 == 0
    ensures a % 16 == 0
  {
    MultipleOf16(a / alignment, alignment);
    assert a == a / alignment * alignment;
  }

  lemma NextMultiple(a: nat, alignment: nat)
    requires alignment > 0 && a % alignment == 0
    ensures (a + alignment) % alignment == 0
  {
    var q := a / alignment;
    assert a + alignment == (q + 1) * alignment;
    RemainderUnique(a + alignment, q + 1, alignment, 0);
  }

  /** The user pointer is the least multiple of the alignment above the raw one; its
      offset leaves room for the shim header, is at most the alignment, and fits the
      32-bit field. */
  lemma AlignedPlacement(address: nat, alignment: nat)
    requires IsPowerOfTwo(alignment) && 16 < alignment <= MAX_ALIGNMENT
    requires address % 16 == 0 && address + alignment <= WORD
    ensures var user := AlignedUser(address, alignment);
            && user % alignment == 0 && user % 16 == 0
            && 16 <= user - address <= alignment && user - address < 0x1_0000_0000
            && (user - address) % 16 == 0
            && forall x: nat :: x % alignment == 0 && address < x ==> user <= x
  {
    AlignUpExact(address, alignment);
    PowerOver16(alignment);
    NextUp(AlignUp(address, alignment), address, alignment);
  }

  /** The test for a power of two, brought out where it matters. */
  ghost predicate Aligning(alignment: nat) {
    forall key {:trigger Opened(alignment, key)} :: Opened(alignment, key) ==> IsPowerOfTwo(alignment)
  }

  lemma AlignedOffset(address: nat, alignment: nat)
    requires Aligning(alignment) == true && 16 < alignment <= MAX_ALIGNMENT
    requires address % 16 == 0 && address + alignment <= WORD
    ensures var user := AlignedUser(address, alignment);
            && AlignedTo(user, alignment) == true && user % 16 == 0 && (user - address) % 16 == 0
            && 16 <= user - address <= alignment && user - address < 0x1_0000_0000
  {
    assert Opened(alignment, 0);
    AlignedPlacement(address, alignment);
  }

  lemma NextUp(a: nat, address: nat, alignment: nat)
    requires alignment > 0 && LeastMultipleAtLeast(a, address, alignment) && a < address + alignment
    requires alignment % 16 == 0 && address % 16 == 0
    ensures var user := if a == address then a + alignment else a;
            && user % alignment == 0 && user % 16 == 0 && 16 <= user - address <= alignment
            && (user - address) % 16 == 0
            && forall x: nat :: x % alignment == 0 && address < x ==> user <= x
  {
    MultipleIsMultipleOf16(a, alignment);
    if a == address {
      JustAbove(a, alignment);
      Sum16(a, alignment);
    } else {
      Gap16(a, address);
    }
  }

  lemma JustAbove(a: nat, alignment: nat)
    requires alignment > 0 && a % alignment == 0
    ensures (a + alignment) % alignment == 0
    ensures forall x: nat :: x % alignment == 0 && a < x ==> a + alignment <= x
  {
    NextMultiple(a, alignment);
    forall x: nat | x % alignment == 0 && a < x
      ensures a + alignment <= x
    {
      MultiplesApart(a, x, alignment);
    }
  }

  lemma Sum16(a: nat, b: nat)
    requires a % 16 == 0 && b % 16 == 0 && b > 0
    ensures (a + b) % 16 == 0 && b >= 16
  {}

  lemma Gap16(a: nat, b: nat)
    requires a % 16 == 0 && b % 16 == 0 && b <= a
    ensures (a - b) % 16 == 0 && (a == b || 16 <= a - b)
  {}

  /** Every block is aligned enough for the alignments that need no shim. */
  lemma SmallAlignment(p: nat, alignment: nat)
    requires IsPowerOfTwo(alignment) && alignment <= 16 && p % 16 == 0
    ensures AlignedTo(p, alignment) == true
  {
    var k := Exponent(alignment);
    SmallPower(k);
    Halves(p);
  }

  lemma Halves(p: nat)
    requires p % 16 == 0
    ensures AlignedTo(p, 1) && AlignedTo(p, 2) && AlignedTo(p, 4) && AlignedTo(p, 8) && AlignedTo(p, 16)
  {
    var q := p / 16;
    RemainderUnique(p, 16 * q, 1, 0);
    RemainderUnique(p, 8 * q, 2, 0);
    RemainderUnique(p, 4 * q, 4, 0);
    RemainderUnique(p, 2 * q, 8, 0);
  }

  lemma {:induction false} SmallPower(k: nat)
    requires Pow2(k) <= 16
    ensures Pow2(k) == 1 || Pow2(k) == 2 || Pow2(k) == 4 || Pow2(k) == 8 || Pow2(k) == 16
  {
    if k > 0 { SmallPower(k - 1); }
  }
}
