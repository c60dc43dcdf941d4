/** The size-class table of the small tier, and the lookup table built from it. */
module SizeClasses {
  import opened Words

  const SMALL_MAX: nat := 4096
  const GRANULARITY: nat := 8
  const HEADER_SIZE: nat := 16
  const CLASS_COUNT: nat := 30

  const CLASS_SIZES: seq<nat> := [
    8, 16, 24, 32, 48, 64, 80, 96, 112, 128, 160, 192, 224, 256, 320,
    384, 448, 512, 640, 768, 896, 1024, 1280, 1536, 1792, 2048, 2560, 3072, 3584, 4096]

  /** A strictly increasing table of multiples of g that ends at top and whose
      indices fit a byte. */
  ghost predicate ValidClasses(sizes: seq<nat>, g: nat, top: nat) {
    && g > 0 && 0 < |sizes| <= 256 && sizes[|sizes| - 1] == top
    && (forall i, j :: 0 <= i < j < |sizes| ==> sizes[i] < sizes[j])
    && (forall i :: 0 <= i < |sizes| ==> sizes[i] % g == 0)
  }

  /** c is the least class that holds n bytes. */
  ghost predicate IsLeastClass(sizes: seq<nat>, n: nat, c: nat) {
    && c < |sizes| && n <= sizes[c]
    && forall d :: 0 <= d < c ==> sizes[d] < n
  }

  lemma LeastClassUnique(sizes: seq<nat>, n: nat, c: nat, d: nat)
    requires IsLeastClass(sizes, n, c) && IsLeastClass(sizes, n, d)
    ensures c == d
  {}

  /** The table's own sizes qualify. */
  lemma ClassSizesValid()
    ensures ValidClasses(CLASS_SIZES, GRANULARITY, SMALL_MAX) && |CLASS_SIZES| == CLASS_COUNT
  {
    ClassSizesIncrease();
    ClassSizesAligned();
    AdjacentIncreasing(CLASS_SIZES);
  }

  /** The classes are 8 apart up to 32, then 16 apart up to 128, and then there are four to
      each doubling. */
  lemma ClassSpacing(c: nat)
    requires c < 30
    ensures CLASS_SIZES[c] ==
            if c < 4 then 8 * (c + 1)
            else if c < 10 then 16 * (c - 1)
            else 32 * (5 + (c - 10) % 4) * Pow2((c - 10) / 4)
  {
    var s := CLASS_SIZES;
    assert Pow2(0) == 1 && Pow2(1) == 2 && Pow2(2) == 4 && Pow2(3) == 8 && Pow2(4) == 16;
    if c < 10 {
    } else if c < 20 {
      assert forall i :: 10 <= i < 14 ==> s[i] == 32 * (5 + (i - 10)) * 1;
      assert forall i :: 14 <= i < 18 ==> s[i] == 32 * (5 + (i - 14)) * 2;
      assert forall i :: 18 <= i < 20 ==> s[i] == 32 * (5 + (i - 18)) * 4;
    } else {
      assert forall i :: 20 <= i < 22 ==> s[i] == 32 * (5 + (i - 18)) * 4;
      assert forall i :: 22 <= i < 26 ==> s[i] == 32 * (5 + (i - 22)) * 8;
      assert forall i :: 26 <= i < 30 ==> s[i] == 32 * (5 + (i - 26)) * 16;
    }
  }

  lemma ClassSizesIncrease()
    ensures forall i :: 0 <= i < |CLASS_SIZES| - 1 ==> CLASS_SIZES[i] < CLASS_SIZES[i + 1]
  {
    var s := CLASS_SIZES;
    assert forall i :: 0 <= i < 15 ==> s[i] < s[i + 1];
    assert forall i :: 15 <= i < 29 ==> s[i] < s[i + 1];
  }

  lemma ClassSizesAligned()
    ensures forall i :: 0 <= i < |CLASS_SIZES| ==> CLASS_SIZES[i] % GRANULARITY == 0
  {
    var s := CLASS_SIZES;
    assert forall i :: 0 <= i < 15 ==> s[i] % 8 == 0;
    assert forall i :: 15 <= i < 30 ==> s[i] % 8 == 0;
  }

  lemma AdjacentIncreasing(s: seq<nat>)
    requires forall i :: 0 <= i < |s| - 1 ==> s[i] < s[i + 1]
    ensures forall i, j :: 0 <= i < j < |s| ==> s[i] < s[j]
  {
    forall i, j | 0 <= i < j < |s|
      ensures s[i] < s[j]
    {
      IncreasingBetween(s, i, j);
    }
  }

  lemma IncreasingBetween(s: seq<nat>, i: nat, j: nat)
    requires forall i :: 0 <= i < |s| - 1 ==> s[i] < s[i + 1]
    requires i < j < |s|
    ensures s[i] < s[j]
    decreases j - i
  {
    if i + 1 < j { IncreasingBetween(s, i, j - 1); }
    assert s[j - 1] < s[j];
  }

  /** The builder of kLookup: one forward pass over the slots and the classes together,
      which never leaves the class table. */
  method BuildLookup(sizes: seq<nat>, g: nat, top: nat) returns (table: array<nat>)
    requires ValidClasses(sizes, g, top)
    ensures table.Length == top / g + 1
    ensures forall slot :: 0 <= slot < table.Length ==> IsLeastClass(sizes, slot * g, table[slot])
  {
    table := new nat[top / g + 1];
    var classIdx := 0;
    var slot := 0;
    while slot < table.Length
      invariant 0 <= slot <= table.Length && classIdx < |sizes|
      invariant forall d :: 0 <= d < classIdx ==> sizes[d] < slot * g
      invariant forall t :: 0 <= t < slot ==> IsLeastClass(sizes, t * g, table[t])
    {
      var size := slot * g;
      SlotBelowTop(slot, g, top);
      while sizes[classIdx] < size
        invariant classIdx < |sizes|
        invariant forall d :: 0 <= d < classIdx ==> sizes[d] < size
        decreases |sizes| - classIdx
      {
        classIdx := classIdx + 1;
      }
      table[slot] := classIdx % 256;
      assert (slot + 1) * g == size + g;
      slot := slot + 1;
    }
  }

  lemma SlotBelowTop(slot: nat, g: nat, top: nat)
    requires g > 0 && slot < top / g + 1
    ensures slot * g <= top
  {
    var q := top / g;
    assert q * g <= top;
    assert (q - slot) * g >= 0;
    assert (q - slot) * g == q * g - slot * g;
  }

  /** classIndex: the slot of a size rounded up to the granularity. */
  function Slot(size: nat, g: nat): nat
    requires g > 0
  {
    (size + g - 1) / g
  }

  lemma SlotBounds(size: nat, g: nat)
    requires g > 0
    ensures size <= Slot(size, g) * g < size + g
  {
    var s := size + g - 1;
    assert s == s / g * g + s % g;
  }

  /** One load from the lookup table finds the least class that fits, for every size up
      to the maximum. */
  lemma LookupExact(sizes: seq<nat>, g: nat, top: nat, table: seq<nat>, size: nat)
    requires ValidClasses(sizes, g, top) && size <= top
    requires |table| == top / g + 1
    requires forall slot :: 0 <= slot < |table| ==> IsLeastClass(sizes, slot * g, table[slot])
    ensures Slot(size, g) < |table|
    ensures IsLeastClass(sizes, size, table[Slot(size, g)])
  {
    var slot := Slot(size, g);
    SlotBounds(size, g);
    SlotInTable(size, g, top);
    var c := table[slot];
    assert IsLeastClass(sizes, slot * g, c);
    forall d | 0 <= d < c
      ensures sizes[d] < size
    {
      MultipleBelow(sizes[d], slot, g);
    }
  }

  lemma SlotInTable(size: nat, g: nat, top: nat)
    requires g > 0 && size <= top && top % g == 0
    ensures Slot(size, g) <= top / g
  {
    var slot, q := Slot(size, g), top / g;
    SlotBounds(size, g);
    RemainderUnique(slot * g, slot, g, 0);
    MultiplesApart(slot * g, top, g);
    FactorAtMost(slot, q, g);
  }

  lemma FactorAtMost(a: nat, b: nat, g: nat)
    requires g > 0 && a * g <= b * g
    ensures a <= b
  {
    assert (a - b) * g == a * g - b * g;
    if a > b { MulAtLeast(a - b, g); }
  }

  /** A multiple of g below slot * g is at most (slot - 1) * g. */
  lemma MultipleBelow(x: nat, slot: nat, g: nat)
    requires g > 0 && x % g == 0 && x < slot * g
    ensures x + g <= slot * g
  {
    RemainderUnique(slot * g, slot, g, 0);
    MultiplesApart(x, slot * g, g);
  }

  // -------------------------------------------------------------- the class of a size

  /** The least class of the table that holds size bytes, by search from class c. */
  function ClassFrom(size: nat, c: nat): (r: nat)
    requires size <= SMALL_MAX && c < CLASS_COUNT && |CLASS_SIZES| == CLASS_COUNT
    requires CLASS_SIZES[CLASS_COUNT - 1] == SMALL_MAX
    requires forall d :: 0 <= d < c ==> CLASS_SIZES[d] < size
    ensures IsLeastClass(CLASS_SIZES, size, r)
    decreases CLASS_COUNT - c
  {
    if size <= CLASS_SIZES[c] then c else ClassFrom(size, c + 1)
  }

  function ClassIndex(size: nat): (r: nat)
    requires size <= SMALL_MAX
    ensures IsLeastClass(CLASS_SIZES, size, r) && r < CLASS_COUNT
  {
    ClassSizesValid();
    ClassFrom(size, 0)
  }

  function ClassSize(index: nat): nat
    requires index < CLASS_COUNT
  {
    CLASS_SIZES[index]
  }

  /** The size of the class chosen for a request is the least entry that holds it. */
  lemma LeastSize(size: nat)
    requires size <= SMALL_MAX
    ensures ClassSize(ClassIndex(size)) in CLASS_SIZES && size <= ClassSize(ClassIndex(size))
    ensures forall n :: n in CLASS_SIZES && size <= n ==> ClassSize(ClassIndex(size)) <= n
  {
    var c := ClassIndex(size);
    ClassSizesValid();
    forall n | n in CLASS_SIZES && size <= n
      ensures CLASS_SIZES[c] <= n
    {
      var d :| 0 <= d < |CLASS_SIZES| && CLASS_SIZES[d] == n;
      assert c <= d;
    }
  }

  /** blockStride: header and class, rounded to the default alignment. */
  function Stride(index: nat): nat
    requires index < CLASS_COUNT
  {
    AlignUp(HEADER_SIZE + ClassSize(index), 16)
  }

  lemma ClassSizeBounds(index: nat)
    requires index < CLASS_COUNT
    ensures 8 <= ClassSize(index) <= SMALL_MAX && ClassSize(index) % 8 == 0
  {
    ClassSizesValid();
    var s := CLASS_SIZES;
    if index > 0 { assert s[0] < s[index]; }
    if index < CLASS_COUNT - 1 { assert s[index] < s[CLASS_COUNT - 1]; }
    assert s[index] % 8 == 0;
  }

  /** Every stride is a multiple of 16, holds its header and class, and fits a run at
      least fifteen times. */
  lemma StrideBounds(index: nat)
    requires index < CLASS_COUNT
    ensures Stride(index) % 16 == 0 && 32 <= Stride(index) <= 4112
    ensures HEADER_SIZE + ClassSize(index) <= Stride(index) < HEADER_SIZE + ClassSize(index) + 16
  {
    ClassSizeBounds(index);
    PowerPassesMask(4);
    assert Pow2(4) == 16;
    AlignUpExact(HEADER_SIZE + ClassSize(index), 16);
    MultiplesApart(Stride(index), 16, 16);
    assert 4112 % 16 == 0;
    assert Stride(index) <= 4112;
  }

  /** A block of the class chosen for a request holds its header and the request. */
  lemma StrideCovers(size: nat)
    requires size <= SMALL_MAX
    ensures HEADER_SIZE + size <= Stride(ClassIndex(size))
  {
    StrideBounds(ClassIndex(size));
  }

  /** 33 bytes take the class of 48: almost a third of the block goes unused. */
  lemma WasteExample()
    ensures ClassSize(ClassIndex(33)) == 48
  {
    var s := CLASS_SIZES;
    assert s[3] == 32 && s[4] == 48;
    assert IsLeastClass(s, 33, 4) by {
      forall d | 0 <= d < 4
        ensures s[d] < 33
      {}
    }
    LeastClassUnique(s, 33, 4, ClassIndex(33));
  }

  /** The bound of 12 percent holds for a request if and only if the request takes up at
      least 88 percent of some class that it fits. */
  lemma WasteWithinTwelvePercent(size: nat)
    requires size <= SMALL_MAX
    ensures var block := ClassSize(ClassIndex(size));
            100 * (block - size) <= 12 * block <==>
            exists c :: 0 <= c < CLASS_COUNT && size <= CLASS_SIZES[c] && 88 * CLASS_SIZES[c] <= 100 * size
  {
    ClassSizesValid();
    WasteOfLeast(CLASS_SIZES, size, ClassIndex(size));
  }

  lemma WasteOfLeast(sizes: seq<nat>, n: nat, b: nat)
    requires ValidClasses(sizes, GRANULARITY, SMALL_MAX) && IsLeastClass(sizes, n, b)
    ensures 100 * (sizes[b] - n) <= 12 * sizes[b] <==>
            exists c :: 0 <= c < |sizes| && n <= sizes[c] && 88 * sizes[c] <= 100 * n
  {
    if 100 * (sizes[b] - n) <= 12 * sizes[b] {
      assert n <= sizes[b] && 88 * sizes[b] <= 100 * n;
    }
    forall c | 0 <= c < |sizes| && n <= sizes[c] && 88 * sizes[c] <= 100 * n
      ensures 100 * (sizes[b] - n) <= 12 * sizes[b]
    {
      assert b <= c;
      assert sizes[b] <= sizes[c];
    }
  }

  /** So it fails for every request strictly between a class and 88 percent of the next. */
  lemma WasteAboveTwelvePercent(size: nat, c: nat)
    requires 0 < c < CLASS_COUNT && CLASS_SIZES[c - 1] < size && 100 * size < 88 * CLASS_SIZES[c]
    ensures size <= SMALL_MAX && ClassIndex(size) == c
    ensures 100 * (ClassSize(ClassIndex(size)) - size) > 12 * ClassSize(ClassIndex(size))
  {
    var s := CLASS_SIZES;
    ClassSizeBounds(c);
    ClassSizesValid();
    assert IsLeastClass(s, size, c) by {
      forall d | 0 <= d < c
        ensures s[d] < size
      {
        assert s[d] <= s[c - 1];
      }
    }
    LeastClassUnique(s, size, c, ClassIndex(size));
  }

  /** What goes unused is below a third of the block, for every request but the few
      smallest. */
  lemma WasteBelowThird(size: nat)
    requires size <= SMALL_MAX
    ensures var block := ClassSize(ClassIndex(size));
            3 * (block - size) < block <==> size > 5 && size != 9 && size != 10
  {
    var s, c := CLASS_SIZES, ClassIndex(size);
    assert s[0] == 8 && s[1] == 16;
    if c >= 2 {
      StepBelowThird(c);
      assert s[c - 1] < size;
      assert s[1] < size;
    } else if size <= 8 {
      assert !(s[0] < size);
    }
  }

  lemma StepBelowThird(c: nat)
    requires 2 <= c < CLASS_COUNT
    ensures 3 * (CLASS_SIZES[c] - CLASS_SIZES[c - 1]) <= CLASS_SIZES[c]
  {
    var s := CLASS_SIZES;
    if c < 16 {
      assert forall i :: 2 <= i < 16 ==> 3 * (s[i] - s[i - 1]) <= s[i];
    } else {
      assert forall i :: 16 <= i < 30 ==> 3 * (s[i] - s[i - 1]) <= s[i];
    }
  }
}
