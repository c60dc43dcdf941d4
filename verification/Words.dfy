/** Machine words as natural numbers, with the bitwise operators the allocator
    uses defined bit by bit, and the arithmetic meaning of its masks. */
module Words {

  const WORD: nat := 0x1_0000_0000_0000_0000

  function Pow2(k: nat): (p: nat)
    ensures p > 0
  {
    if k == 0 then 1 else 2 * Pow2(k - 1)
  }

  /** The bits of x, least significant first. */
  predicate Bit(x: nat, k: nat)
    decreases k
  {
    if k == 0 then x % 2 == 1 else Bit(x / 2, k - 1)
  }

  function And(x: nat, y: nat): nat {
    if x == 0 || y == 0 then 0
    else (if x % 2 == 1 && y % 2 == 1 then 1 else 0) + 2 * And(x / 2, y / 2)
  }

  function Or(x: nat, y: nat): nat {
    if x == 0 then y
    else if y == 0 then x
    else (if x % 2 == 1 || y % 2 == 1 then 1 else 0) + 2 * Or(x / 2, y / 2)
  }

  /** Complement of the low w bits of x. */
  function Not(x: nat, w: nat): nat
    decreases w
  {
    if w == 0 then 0 else (1 - x % 2) + 2 * Not(x / 2, w - 1)
  }

  /** The 64-bit complement; ComplementIsBitwise shows it flips every bit. */
  function Complement(x: nat): nat
    requires x < WORD
  {
    WORD - 1 - x
  }

  /** std::bit_width */
  function BitWidth(x: nat): nat {
    if x == 0 then 0 else 1 + BitWidth(x / 2)
  }

  // ---------------------------------------------------------------- helpers

  lemma Pow2Monotone(a: nat, b: nat)
    requires a <= b
    ensures Pow2(a) <= Pow2(b)
    decreases b
  {
    if a < b { Pow2Monotone(a, b - 1); }
  }

  /** The width of a word. */
  lemma WordWidth() returns (w: nat)
    ensures Pow2(w) == WORD
  {
    assert Pow2(8) == 256;
    Pow2Add(8, 8);
    Pow2Add(16, 16);
    Pow2Add(32, 32);
    w := 64;
  }

  lemma {:induction false} Pow2Add(a: nat, b: nat)
    ensures Pow2(a + b) == Pow2(a) * Pow2(b)
  {
    if a == 0 {
      assert Pow2(0) == 1;
    } else {
      Pow2Add(a - 1, b);
      calc {
        Pow2(a + b);
        2 * Pow2(a - 1 + b);
        2 * (Pow2(a - 1) * Pow2(b));
        (2 * Pow2(a - 1)) * Pow2(b);
      }
    }
  }

  /** Remainders are unique. */
  lemma RemainderUnique(x: nat, q: nat, m: nat, r: nat)
    requires m > 0 && r < m && x == q * m + r
    ensures x % m == r && x / m == q
  {
    var q', r' := x / m, x % m;
    assert q * m - q' * m == (q - q') * m;
    if q' < q {
      MulAtLeast(q - q', m);
    } else if q' > q {
      MulAtLeast(q' - q, m);
    }
  }

  lemma MulAtLeast(d: nat, m: nat)
    requires d >= 1
    ensures d * m >= m
  {}

  /** A remainder modulo 2p, one bit at a time. */
  lemma HalveRemainder(x: nat, p: nat)
    requires p > 0
    ensures x % (2 * p) == 2 * (x / 2 % p) + x % 2
  {
    var h := x / 2;
    var q, r := h / p, h % p;
    assert x == 2 * h + x % 2;
    assert h == q * p + r;
    assert x == q * (2 * p) + (2 * r + x % 2) by {
      assert 2 * (q * p) == q * (2 * p);
    }
    RemainderUnique(x, q, 2 * p, 2 * r + x % 2);
  }

  lemma NotIsSubtraction(x: nat, w: nat)
    requires x < Pow2(w)
    ensures Not(x, w) == Pow2(w) - 1 - x
    decreases w
  {
    if w > 0 { NotIsSubtraction(x / 2, w - 1); }
  }

  lemma ComplementIsBitwise(x: nat, w: nat)
    requires x < WORD && Pow2(w) == WORD
    ensures Complement(x) == Not(x, w)
  {
    NotIsSubtraction(x, w);
  }

  lemma AndAllOnes(x: nat, w: nat)
    requires x < Pow2(w)
    ensures And(x, Not(0, w)) == x
    decreases w
  {
    if w > 0 { AndAllOnes(x / 2, w - 1); }
  }

  // ------------------------------------------------------------------ masks

  /** Masking with 2^k - 1 is the remainder. */
  lemma {:induction false} AndLowMask(x: nat, k: nat)
    ensures And(x, Pow2(k) - 1) == x % Pow2(k)
    decreases k
  {
    if k == 0 {
      assert x % 1 == 0;
    } else if x == 0 {
      RemainderUnique(0, 0, Pow2(k), 0);
    } else {
      var p := Pow2(k - 1);
      var m := 2 * p - 1;
      assert Pow2(k) == 2 * p;
      calc {
        And(x, m);
        { assert m % 2 == 1 && m / 2 == p - 1; }
        x % 2 + 2 * And(x / 2, p - 1);
        { AndLowMask(x / 2, k - 1); }
        x % 2 + 2 * (x / 2 % p);
        { HalveRemainder(x, p); }
        x % (2 * p);
      }
    }
  }

  /** Masking with the complement of 2^k - 1 clears the remainder. */
  lemma {:induction false} AndHighMask(x: nat, k: nat, w: nat)
    requires x < Pow2(w) && k <= w
    ensures And(x, Not(Pow2(k) - 1, w)) == x - x % Pow2(k)
    decreases k
  {
    if k == 0 {
      AndAllOnes(x, w);
    } else if x == 0 {
      RemainderUnique(0, 0, Pow2(k), 0);
    } else {
      var p := Pow2(k - 1);
      var n := Not(p - 1, w - 1);
      assert Pow2(k) == 2 * p;
      calc {
        And(x, Not(2 * p - 1, w));
        { assert (2 * p - 1) % 2 == 1 && (2 * p - 1) / 2 == p - 1; }
        And(x, 2 * n);
        { assert 2 * n % 2 == 0 && 2 * n / 2 == n; }
        2 * And(x / 2, n);
        { AndHighMask(x / 2, k - 1, w - 1); }
        2 * (x / 2 - x / 2 % p);
        { HalveRemainder(x, p); }
        x - x % (2 * p);
      }
    }
  }

  /** Or-ing a value below 2^k into a multiple of 2^k adds it. */
  lemma {:induction false} OrDisjoint(x: nat, y: nat, k: nat)
    requires x < Pow2(k) && y % Pow2(k) == 0
    ensures Or(x, y) == x + y
    decreases k
  {
    if k > 0 && x > 0 && y > 0 {
      HalveRemainder(y, Pow2(k - 1));
      OrDisjoint(x / 2, y / 2, k - 1);
    }
  }

  // ----------------------------------------------------------------- single bits

  lemma {:induction false} TestBit(x: nat, k: nat)
    ensures And(x, Pow2(k)) == if Bit(x, k) then Pow2(k) else 0
    decreases k
  {
    if x == 0 {
      ZeroHasNoBits(k);
    } else if k > 0 {
      TestBit(x / 2, k - 1);
    } else {
      assert And(x / 2, 0) == 0;
    }
  }

  lemma ZeroHasNoBits(k: nat)
    ensures !Bit(0, k)
  {
    if k > 0 { ZeroHasNoBits(k - 1); }
  }

  lemma {:induction false} SetBit(x: nat, k: nat)
    ensures Or(x, Pow2(k)) == if Bit(x, k) then x else x + Pow2(k)
    decreases k
  {
    if x == 0 {
      ZeroHasNoBits(k);
    } else if k > 0 {
      SetBit(x / 2, k - 1);
    } else {
      assert Or(x / 2, 0) == x / 2;
    }
  }

  lemma {:induction false} ClearBit(x: nat, k: nat, w: nat)
    requires x < Pow2(w) && k < w
    ensures And(x, Not(Pow2(k), w)) == if Bit(x, k) then x - Pow2(k) else x
    ensures Bit(x, k) ==> x >= Pow2(k)
    decreases k
  {
    if x == 0 {
      ZeroHasNoBits(k);
    } else if k > 0 {
      ClearBit(x / 2, k - 1, w - 1);
      var p := Pow2(k - 1);
      var n := Not(p, w - 1);
      assert 2 * p % 2 == 0 && 2 * p / 2 == p;
      assert Not(2 * p, w) == 1 + 2 * n;
      assert (1 + 2 * n) % 2 == 1 && (1 + 2 * n) / 2 == n;
    } else {
      var m := Not(1, w);
      assert m == 2 * Not(0, w - 1);
      AndAllOnes(x / 2, w - 1);
      assert m % 2 == 0 && m / 2 == Not(0, w - 1);
    }
  }

  // --------------------------------------------------------- BlockHeader.hpp

  predicate IsPowerOfTwo(value: nat) {
    value != 0 && And(value, value - 1) == 0
  }

  lemma AndSelf(x: nat)
    ensures And(x, x) == x
  {}

  /** The mask test accepts exactly the powers of two. */
  lemma {:induction false} IsPowerOfTwoExact(value: nat)
    ensures IsPowerOfTwo(value) <==> exists k: nat :: value == Pow2(k)
  {
    if IsPowerOfTwo(value) {
      var k := Exponent(value);
    }
    forall k: nat | value == Pow2(k)
      ensures IsPowerOfTwo(value)
    {
      PowerPassesMask(k);
    }
  }

  lemma {:induction false} Exponent(value: nat) returns (k: nat)
    requires IsPowerOfTwo(value)
    ensures value == Pow2(k)
  {
    if value == 1 {
      k := 0;
    } else if value % 2 == 1 {
      AndSelf(value / 2);
      assert false;
    } else {
      assert (value - 1) / 2 == value / 2 - 1;
      var j := Exponent(value / 2);
      k := j + 1;
    }
  }

  lemma {:induction false} PowerPassesMask(k: nat)
    ensures IsPowerOfTwo(Pow2(k))
  {
    if k > 0 {
      PowerPassesMask(k - 1);
      assert (Pow2(k) - 1) / 2 == Pow2(k - 1) - 1;
    }
  }

  /** alignUp on 64-bit words; the addition wraps as size_t does. */
  function AlignUp(value: nat, alignment: nat): nat
    requires 0 < alignment <= WORD
  {
    And((value + alignment - 1) % WORD, Complement(alignment - 1))
  }

  predicate LeastMultipleAtLeast(r: nat, value: nat, alignment: nat)
    requires 0 < alignment
  {
    && r % alignment == 0
    && value <= r
    && forall m: nat :: m % alignment == 0 && value <= m ==> r <= m
  }

  /** When the addition does not wrap, alignUp returns the least multiple of a
      power-of-two alignment that is not below its argument. */
  lemma AlignUpExact(value: nat, alignment: nat)
    requires IsPowerOfTwo(alignment)
    requires value + alignment <= WORD
    ensures LeastMultipleAtLeast(AlignUp(value, alignment), value, alignment)
    ensures AlignUp(value, alignment) < value + alignment
  {
    var k := Exponent(alignment);
    AlignUpToPower(value, k, alignment);
  }

  lemma AlignUpToPower(value: nat, k: nat, a: nat)
    requires a == Pow2(k) && value + a <= WORD
    ensures LeastMultipleAtLeast(AlignUp(value, a), value, a)
    ensures AlignUp(value, a) < value + a
  {
    AlignUpRoundsDown(value, k, a);
    RoundedIsLeast(value, a, AlignUp(value, a));
  }

  lemma RoundedIsLeast(value: nat, a: nat, r: nat)
    requires a > 0 && r == value + a - 1 - (value + a - 1) % a
    ensures LeastMultipleAtLeast(r, value, a) && r < value + a
  {
    RoundDownMultiple(value + a - 1, a);
    forall m: nat | m % a == 0 && value <= m
      ensures r <= m
    {
      MultiplesApart(r, m, a);
    }
  }

  lemma AlignUpRoundsDown(value: nat, k: nat, a: nat)
    requires a == Pow2(k) && value + a <= WORD
    ensures AlignUp(value, a) == value + a - 1 - (value + a - 1) % a
  {
    RemainderUnique(value + a - 1, 0, WORD, value + a - 1);
    MaskRoundsDown(value + a - 1, k, a);
  }

  lemma MaskRoundsDown(s: nat, k: nat, a: nat)
    requires a == Pow2(k) && s < WORD && a <= WORD
    ensures And(s, Complement(a - 1)) == s - s % a
  {
    var w := WordWidth();
    ExponentBound(k, w);
    ComplementIsBitwise(a - 1, w);
    AndHighMask(s, k, w);
  }

  lemma ExponentBound(k: nat, w: nat)
    requires Pow2(k) <= Pow2(w)
    ensures k <= w
  {
    if k > w { Pow2Monotone(w + 1, k); }
  }

  lemma RoundDownMultiple(s: nat, a: nat)
    requires a > 0
    ensures (s - s % a) % a == 0
  {
    RemainderUnique(s - s % a, s / a, a, 0);
  }

  /** Two multiples of a that are closer than a are equal. */
  lemma MultiplesApart(x: nat, y: nat, a: nat)
    requires a > 0 && x % a == 0 && y % a == 0
    ensures x == y || x + a <= y || y + a <= x
  {
    var p, q := x / a, y / a;
    assert x == p * a && y == q * a;
    if p < q {
      MulAtLeast(q - p, a);
      assert (q - p) * a == q * a - p * a;
    } else if q < p {
      MulAtLeast(p - q, a);
      assert (p - q) * a == p * a - q * a;
    }
  }

  /** alignUp returns the least multiple that is not below its argument if and only if the
      addition does not wrap; if it does wrap, the result is zero. */
  lemma AlignUpExactIff(value: nat, alignment: nat)
    requires IsPowerOfTwo(alignment) && alignment <= WORD && value < WORD
    ensures LeastMultipleAtLeast(AlignUp(value, alignment), value, alignment) <==> value + alignment <= WORD
    ensures value + alignment > WORD ==> AlignUp(value, alignment) == 0
  {
    if value + alignment <= WORD {
      AlignUpExact(value, alignment);
    } else {
      AlignUpWraps(value, alignment);
    }
  }

  lemma AlignUpWraps(value: nat, alignment: nat)
    requires IsPowerOfTwo(alignment) && alignment <= WORD && value < WORD < value + alignment
    ensures AlignUp(value, alignment) == 0
  {
    var k := Exponent(alignment);
    var s := value + alignment - 1 - WORD;
    RemainderUnique(value + alignment - 1, 1, WORD, s);
    MaskRoundsDown(s, k, alignment);
    RemainderUnique(s, 0, alignment, s);
  }

  // -------------------------------------------------------------- bit widths

  /** bit_width brackets its argument between two powers of two. */
  lemma {:induction false} BitWidthBounds(x: nat)
    requires x > 0
    ensures BitWidth(x) > 0 && Pow2(BitWidth(x) - 1) <= x < Pow2(BitWidth(x))
  {
    if x > 1 { BitWidthBounds(x / 2); }
  }

  lemma BitWidthMonotone(x: nat, y: nat)
    requires x <= y
    ensures BitWidth(x) <= BitWidth(y)
  {}
}
