/** What freeing writes, and how long the freed state in a header lasts. */
module FreedBlocks {
  import opened SystemMemory
  import opened SizeClasses
  import opened Tiers
  import opened TierWrites
  import opened RawMemory
  import opened FacadeState

  // ------------------------------------------------------------------ writes of a free

  function Poisoned(m: Memory, p: int, size: nat, poison: bool, value: Byte): Memory {
    if poison then Fill(m, p, size, value) else m
  }

  /** The shim of a block, if it has one, says freed. */
  function ShimMarked(m: Memory, p: int, k: Block): Memory {
    if k.kind.Plain? then m else SetState(m, p - HEADER_SIZE, FREED)
  }

  /** rawDeallocate's own write: a large block is unmapped as it is. */
  function MarkRaw(m: Memory, r: Raw): Memory {
    if r.owner.Large? then m else SetState(m, r.lo, FREED)
  }

  /** A header that deallocate answers with DoubleFree. */
  predicate FreedMark(m: Memory, p: int) {
    ValidTier(TierAt(m, p - HEADER_SIZE)) && StateAt(m, p - HEADER_SIZE) == FREED
  }

  /** A header that deallocate takes for that of an issued block. */
  predicate LooksIssued(m: Memory, p: int) {
    ValidTier(TierAt(m, p - HEADER_SIZE)) && StateAt(m, p - HEADER_SIZE) == ALLOCATED
  }

  predicate ValidTier(tier: nat) {
    0x51 <= tier <= 0x55
  }

  lemma PoisonKeeps(m: Memory, p: int, k: Block, poison: bool, value: Byte)
    requires BlockOK(m, p, k)
    ensures BlockOK(Poisoned(m, p, k.size, poison, value), p, k)
    ensures Only(m, Poisoned(m, p, k.size, poison, value), k.raw.lo, k.raw.hi)
  {
    if poison {
      FillKeepsBlock(m, p, k, value);
    } else {
      SameMemory(m, k.raw.lo, k.raw.hi);
    }
  }

  lemma SameMemory(m: Memory, lo: int, hi: int)
    ensures Only(m, m, lo, hi)
  {}

  /** The headers of a shimmed block. */
  ghost predicate ShimAt(m: Memory, p: int, r: Raw, under: nat) {
    && ValidTier(TierAt(m, p - HEADER_SIZE)) && r.lo + 2 * HEADER_SIZE <= p <= r.hi
    && HeaderAt(m, r.lo, under, RawMark(r.owner, ALLOCATED))
  }

  lemma ShimBelow(m: Memory, p: int, k: Block)
    requires BlockOK(m, p, k) && !k.kind.Plain?
    ensures ShimAt(m, p, k.raw, k.under)
  {
    HeaderReads(m, p - HEADER_SIZE, k.size,
                if k.kind.Aligned? then Mark(ALIGNED_TIER, ALLOCATED, p - RawUser(k))
                else Mark(DEBUG_TIER, ALLOCATED, FRONT_GUARD));
  }

  lemma ShimFreed(m: Memory, p: int, r: Raw, under: nat)
    requires ShimAt(m, p, r, under)
    ensures var m1 := SetState(m, p - HEADER_SIZE, FREED);
            && Only(m, m1, r.lo, r.hi) && FreedMark(m1, p)
            && HeaderAt(m1, r.lo, under, RawMark(r.owner, ALLOCATED))
  {
    var m1 := SetState(m, p - HEADER_SIZE, FREED);
    SetStateOnly(m, p - HEADER_SIZE, FREED);
    OnlyWiden(m, m1, p - 8, p, r.lo, r.hi);
    HeaderKept(m, m1, r.lo, under, RawMark(r.owner, ALLOCATED), p - 8, p);
  }

  lemma ShimMarkedOnly(m: Memory, p: int, k: Block)
    requires BlockOK(m, p, k)
    ensures var m1 := ShimMarked(m, p, k);
            && Only(m, m1, k.raw.lo, k.raw.hi) && (!k.kind.Plain? ==> FreedMark(m1, p))
            && HeaderAt(m1, k.raw.lo, k.under, RawMark(k.raw.owner, ALLOCATED))
  {
    if k.kind.Plain? {
      SameMemory(m, k.raw.lo, k.raw.hi);
    } else {
      ShimBelow(m, p, k);
      ShimFreed(m, p, k.raw, k.under);
    }
  }

  lemma MarkRawOnly(m: Memory, r: Raw, under: nat, p: int)
    requires HeaderAt(m, r.lo, under, RawMark(r.owner, ALLOCATED)) && r.lo + HEADER_SIZE <= r.hi
    requires under < 0x1_0000_0000_0000_0000
    requires p == r.lo + HEADER_SIZE || (r.lo + 2 * HEADER_SIZE <= p && FreedMark(m, p))
    ensures Only(m, MarkRaw(m, r), r.lo, r.hi)
    ensures !r.owner.Large? ==> FreedMark(MarkRaw(m, r), p)
  {
    if r.owner.Large? {
      SameMemory(m, r.lo, r.hi);
    } else {
      SetStateOnly(m, r.lo, FREED);
      HeaderReads(m, r.lo, under, RawMark(r.owner, ALLOCATED));
      OnlyWiden(m, MarkRaw(m, r), r.lo + 8, r.lo + 16, r.lo, r.hi);
      if p != r.lo + HEADER_SIZE {
        assert Same(m, MarkRaw(m, r), p - 8, p);
        MarkSame(m, MarkRaw(m, r), p);
      }
    }
  }

  /** All that the facade writes when it frees p, before the tier takes the block. */
  function Wiped(m: Memory, p: int, k: Block, poison: bool): Memory {
    MarkRaw(ShimMarked(Poisoned(m, p, k.size, poison, FREE_POISON), p, k), k.raw)
  }

  /** It is inside p's raw block, and afterwards the header below p says freed. */
  lemma WipedOnly(m: Memory, p: int, k: Block, poison: bool)
    requires BlockOK(m, p, k)
    ensures Only(m, Wiped(m, p, k, poison), k.raw.lo, k.raw.hi)
    ensures !k.raw.owner.Large? ==> FreedMark(Wiped(m, p, k, poison), p)
  {
    var m1 := Poisoned(m, p, k.size, poison, FREE_POISON);
    PoisonKeeps(m, p, k, poison, FREE_POISON);
    MarksOnly(m1, p, k);
    OnlyTrans(m, m1, Wiped(m, p, k, poison), k.raw.lo, k.raw.hi);
  }

  /** With poisoning, every byte of the payload is then 0xDD; without, none has changed. */
  lemma WipedPayload(m: Memory, p: int, k: Block, poison: bool)
    requires BlockOK(m, p, k)
    ensures forall x :: p <= x < p + k.size ==>
              Wiped(m, p, k, poison).bytes(x) == if poison then 0xDD else m.bytes(x)
  {
    UserInside(m, p, k);
  }

  lemma MarksOnly(m: Memory, p: int, k: Block)
    requires BlockOK(m, p, k)
    ensures var m1 := MarkRaw(ShimMarked(m, p, k), k.raw);
            Only(m, m1, k.raw.lo, k.raw.hi) && (!k.raw.owner.Large? ==> FreedMark(m1, p))
  {
    var m1 := ShimMarked(m, p, k);
    ShimMarkedOnly(m, p, k);
    UserInside(m, p, k);
    MarkRawOnly(m1, k.raw, k.under, p);
    OnlyTrans(m, m1, MarkRaw(m1, k.raw), k.raw.lo, k.raw.hi);
  }

  // ---------------------------------------------------------------------- freed blocks

  /** p was freed on the raw block of k, and its header still says so: the slot is whole
      and mapped, no issued block reaches into it, and the tiers do not write there. */
  ghost predicate Retired(t: State, m: Memory, live: Blocks, p: int, k: Block) {
    && Slotted(t, k.raw) && Beside(k.raw, p - 8, p) && FreedMark(m, p)
    && forall q :: q in live ==> !Overlap(live[q].raw.lo, live[q].raw.hi, k.raw.lo, k.raw.hi)
  }

  /** The headers out of the tiers' reach are those of every small block, and of every
      medium block but one aligned at an offset of 16. */
  lemma OutOfReach(m: Memory, p: int, k: Block)
    requires BlockOK(m, p, k)
    ensures Beside(k.raw, p - 8, p) <==>
            k.raw.owner.Small? || (k.raw.owner.Medium? && !(k.kind.Aligned? && p == RawUser(k) + 16))
  {}

  /** For that one the tier may write over its shim header as it is freed, since a free node
      of its block lies there; whether it does depends on the neighbours (see SecondFree). */
  lemma ShimUnderNode(t: State, m: Memory, live: Blocks, p: int, via: Via)
    requires Sound(t, m, live) && p in live && live[p].raw.owner.Medium?
    requires live[p].kind.Aligned? && p == RawUser(live[p]) + 16
    ensures IsRaw(t, live[p].raw)
    ensures IsMeta(t, Release(t, live[p].raw, via), Spot(Medium, p - HEADER_SIZE, p))
  {
    var r := live[p].raw;
    NotLiveAfter(t, r, via, r.lo - 16);
  }

  lemma SlotMapped(t: State, r: Raw, lo: int, hi: int)
    requires Within(t, r) && r.lo <= lo && hi <= r.hi
    ensures Mapped(t, lo, hi)
  {}

  lemma SlotSame(t: State, u: State, m: Memory, m': Memory, r: Raw, lo: int, hi: int)
    requires TiersOK(t) && Slotted(t, r) && Within(u, r) && Beside(r, lo, hi) && Quiet(t, u, m, m')
    ensures Same(m, m', lo, hi)
  {
    SlotUntagged(t, u, r, lo, hi);
    SlotMapped(t, r, lo, hi);
    SlotMapped(u, r, lo, hi);
  }

  lemma MarkSame(m: Memory, m': Memory, p: int)
    requires Same(m, m', p - 8, p) && FreedMark(m, p)
    ensures FreedMark(m', p)
  {
    ReadSame(m, m', p - 8, p - 6);
    ReadSame(m, m', p - 6, p - 4);
  }

  /** Freeing another block q leaves a freed header as it is. */
  lemma RetiredKept(t: State, live: Blocks, m: Memory, m1: Memory, m2: Memory, q: int, via: Via, p: int, k: Block)
    requires TiersOK(t) == true && q in live && IsRaw(t, live[q].raw) && Retired(t, m, live, p, k) == true
    requires Only(m, m1, live[q].raw.lo, live[q].raw.hi) == true
    requires var t' := Release(t, live[q].raw, via); Quiet(t, t', m1, m2) == true && Within(t', k.raw) == true
    ensures Retired(Release(t, live[q].raw, via), m2, live - {q}, p, k) == true
  {
    var t' := Release(t, live[q].raw, via);
    assert Same(m, m1, p - 8, p);
    MarkSame(m, m1, p);
    SlotSame(t, t', m1, m2, k.raw, p - 8, p);
    MarkSame(m1, m2, p);
    SlotKept(t, live[q].raw, via, k.raw);
  }

  /** The block just freed joins them. */
  lemma RetiredNew(t: State, live: Blocks, m: Memory, m1: Memory, m2: Memory, p: int, via: Via)
    requires Sound(t, m, live) == true && p in live && FreedMark(m1, p) && Beside(live[p].raw, p - 8, p)
    requires var t' := Release(t, live[p].raw, via); Quiet(t, t', m1, m2) == true && Within(t', live[p].raw) == true
    ensures Retired(Release(t, live[p].raw, via), m2, live - {p}, p, live[p]) == true
  {
    var r := live[p].raw;
    var t' := Release(t, r, via);
    RawSlotted(t, r);
    SlotSame(t, t', m1, m2, r, p - 8, p);
    MarkSame(m1, m2, p);
    SlotKept(t, r, via, r);
    forall q | q in live - {p}
      ensures !Overlap(live[q].raw.lo, live[q].raw.hi, r.lo, r.hi)
    {
      assert !Shared(live, p, q);
      RawsApart(t, live[q].raw, r);
    }
  }

  lemma RetiredNotLive(t: State, m: Memory, live: Blocks, p: int, k: Block)
    requires Sound(t, m, live) && Retired(t, m, live, p, k)
    ensures p !in live
  {
    if p in live { UserInside(m, p, live[p]); }
  }
}
