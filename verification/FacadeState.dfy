/** What the facade keeps about the blocks it has issued: headers, shims and guards in raw
    memory, over the raw blocks of the tiers. */
module FacadeState {
  import opened Folding
  import opened SystemMemory
  import opened SizeClasses
  import opened Sums
  import opened Tiers
  import opened TierWrites
  import opened RawMemory

  const ALLOCATED: nat := 0xA11C
  const FREED: nat := 0xF4EE
  const ALIGNED_TIER: nat := 0x54
  const DEBUG_TIER: nat := 0x55

  const FRONT_GUARD: nat := 32
  const REAR_GUARD: nat := 32
  const GUARD_BYTE: Byte := 0xFB
  const ALLOC_POISON: Byte := 0xCD
  const FREE_POISON: Byte := 0xDD

  function TierCode(owner: Owner): nat {
    match owner
    case Small(_) => 0x51
    case Medium => 0x52
    case Large => 0x53
  }

  /** The tier that serves a raw request. */
  function Route(size: nat): Owner {
    if size <= SMALL_MAX then Small(ClassIndex(size)) else if size <= MEDIUM_MAX then Medium else Large
  }

  /** The header fields of a raw block. */
  function RawMark(owner: Owner, state: nat): Mark {
    Mark(TierCode(owner), state, 0)
  }

  datatype Kind = Plain | Aligned | Guarded

  /** An issued block: the requested size, how it is wrapped, the raw block below it and
      the size that was asked of the tier. */
  datatype Block = Block(size: nat, kind: Kind, raw: Raw, under: nat)

  type Blocks = map<int, Block>

  /** The first byte after the universal header of the raw block. */
  function RawUser(k: Block): int {
    k.raw.lo + HEADER_SIZE
  }

  ghost predicate BlockOK(m: Memory, p: int, k: Block) {
    && k.size >= 1 && RawUser(k) + k.under <= k.raw.hi <= ADDRESS_LIMIT && k.raw.lo > 0
    && k.raw.owner == Route(k.under)
    && (k.raw.owner.Medium? ==> k.raw.hi <= RawUser(k) + k.under + 47)
    && HeaderAt(m, k.raw.lo, k.under, RawMark(k.raw.owner, ALLOCATED))
    && match k.kind
       case Plain => p == RawUser(k) && k.under == k.size
       case Aligned =>
         && RawUser(k) + HEADER_SIZE <= p && p + k.size <= RawUser(k) + k.under
         && (p - RawUser(k)) % 16 == 0 && p - RawUser(k) < 0x1_0000_0000
         && HeaderAt(m, p - HEADER_SIZE, k.size, Mark(ALIGNED_TIER, ALLOCATED, p - RawUser(k)))
       case Guarded =>
         && p == RawUser(k) + FRONT_GUARD && k.under == k.size + FRONT_GUARD + REAR_GUARD
         && HeaderAt(m, p - HEADER_SIZE, k.size, Mark(DEBUG_TIER, ALLOCATED, FRONT_GUARD))
  }

  lemma UserInside(m: Memory, p: int, k: Block)
    requires BlockOK(m, p, k)
    ensures k.raw.lo + HEADER_SIZE <= p < p + k.size <= k.raw.hi
  {}

  lemma BlockFrame(m: Memory, m': Memory, p: int, k: Block)
    requires BlockOK(m, p, k) && Same(m, m', k.raw.lo, k.raw.hi)
    ensures BlockOK(m', p, k)
  {}

  /** Every raw block handed out lies under exactly one issued block, and every issued
      block has its headers in place. */
  ghost predicate Sound(t: State, m: Memory, live: Blocks) {
    TiersOK(t) && Backed(t, live) && Headed(m, live)
  }

  ghost predicate Backed(t: State, live: Blocks) {
    && (forall p :: p in live ==> IsRaw(t, live[p].raw))
    && (forall p, q {:trigger Shared(live, p, q)} :: !Shared(live, p, q))
    && (forall r :: IsRaw(t, r) ==> Under(live, r))
  }

  ghost predicate Shared(live: Blocks, p: int, q: int) {
    p in live && q in live && p != q && live[p].raw == live[q].raw
  }

  ghost predicate Headed(m: Memory, live: Blocks) {
    forall p :: p in live ==> BlockOK(m, p, live[p])
  }

  ghost predicate Under(live: Blocks, r: Raw) {
    exists p :: p in live && live[p].raw == r
  }

  /** Nothing inside the raw block of an issued block has changed: neither its contents
      nor its headers, guards or slack. */
  ghost predicate Kept(m: Memory, m': Memory, live: Blocks) {
    forall q :: q in live ==> Same(m, m', live[q].raw.lo, live[q].raw.hi)
  }

  /** The user ranges of two issued blocks never overlap. */
  lemma UsersApart(t: State, m: Memory, live: Blocks, p: int, q: int)
    requires Sound(t, m, live) && p in live && q in live && p != q
    ensures !Overlap(live[p].raw.lo, live[p].raw.hi, live[q].raw.lo, live[q].raw.hi)
    ensures !Overlap(p, p + live[p].size, q, q + live[q].size)
  {
    assert !Shared(live, p, q);
    RawsApart(t, live[p].raw, live[q].raw);
    UserInside(m, p, live[p]);
    UserInside(m, q, live[q]);
  }

  lemma HeadedFrame(m: Memory, m': Memory, live: Blocks)
    requires Headed(m, live) && Kept(m, m', live)
    ensures Headed(m', live)
  {
    forall p | p in live
      ensures BlockOK(m', p, live[p])
    {
      BlockFrame(m, m', p, live[p]);
    }
  }

  lemma SoundAdd(t: State, m: Memory, live: Blocks, t': State, m': Memory, p: int, k: Block)
    requires Sound(t, m, live) && TiersOK(t') && Gained(t, t', k.raw)
    requires Kept(m, m', live) && BlockOK(m', p, k)
    ensures p !in live && Sound(t', m', live[p := k])
  {
    NewAddress(t, m, live, t', m', p, k);
    HeadedFrame(m, m', live);
    BackedAdd(t, live, t', p, k);
  }

  lemma BackedAdd(t: State, live: Blocks, t': State, p: int, k: Block)
    requires Backed(t, live) && Gained(t, t', k.raw) && p !in live
    ensures Backed(t', live[p := k])
  {
    var live' := live[p := k];
    forall x, y
      ensures !Shared(live', x, y)
    {
      assert !Shared(live, x, y);
    }
    forall r | IsRaw(t', r)
      ensures Under(live[p := k], r)
    {
      AddUnder(live, p, k, r);
    }
  }

  lemma AddUnder(live: Blocks, p: int, k: Block, r: Raw)
    requires p !in live && (Under(live, r) || r == k.raw)
    ensures Under(live[p := k], r)
  {
    if r == k.raw {
      assert live[p := k][p].raw == r;
    } else {
      var q :| q in live && live[q].raw == r;
      assert live[p := k][q].raw == r;
    }
  }

  lemma NewAddress(t: State, m: Memory, live: Blocks, t': State, m': Memory, p: int, k: Block)
    requires Sound(t, m, live) && TiersOK(t') && Gained(t, t', k.raw) && BlockOK(m', p, k)
    ensures p !in live
    ensures forall q :: q in live ==> live[q].raw != k.raw
  {
    if p in live {
      assert IsRaw(t', live[p].raw) && IsRaw(t', k.raw);
      RawsApart(t', live[p].raw, k.raw);
      UserInside(m, p, live[p]);
      UserInside(m', p, k);
    }
  }

  lemma SoundRemove(t: State, m: Memory, live: Blocks, t': State, m': Memory, p: int)
    requires Sound(t, m, live) && p in live && TiersOK(t') && Lost(t, t', live[p].raw)
    requires Kept(m, m', live - {p})
    ensures Sound(t', m', live - {p})
  {
    HeadedFrame(m, m', live - {p});
    BackedRemove(t, live, t', p);
  }

  lemma BackedRemove(t: State, live: Blocks, t': State, p: int)
    requires Backed(t, live) && p in live && Lost(t, t', live[p].raw)
    ensures Backed(t', live - {p})
  {
    forall q | q in live - {p}
      ensures IsRaw(t', live[q].raw)
    {
      assert !Shared(live, p, q);
    }
    var live' := live - {p};
    forall x, y
      ensures !Shared(live', x, y)
    {
      assert !Shared(live, x, y);
    }
    forall r | IsRaw(t', r)
      ensures Under(live - {p}, r)
    {
      var q :| q in live && live[q].raw == r;
      assert (live - {p})[q].raw == r;
    }
  }

  /** Writing inside the raw block of p only. */
  lemma OthersKept(t: State, m: Memory, live: Blocks, m': Memory, p: int)
    requires Sound(t, m, live) && p in live && Only(m, m', live[p].raw.lo, live[p].raw.hi)
    ensures Kept(m, m', live - {p})
  {
    forall q | q in live && q != p
      ensures Same(m, m', live[q].raw.lo, live[q].raw.hi)
    {
      assert !Shared(live, p, q);
      RawsApart(t, live[p].raw, live[q].raw);
    }
  }

  lemma KeptTrans(m: Memory, m': Memory, m'': Memory, live: Blocks)
    requires Kept(m, m', live) && Kept(m', m'', live)
    ensures Kept(m, m'', live)
  {
    forall q | q in live
      ensures Same(m, m'', live[q].raw.lo, live[q].raw.hi)
    {
      SameTrans(m, m', m'', live[q].raw.lo, live[q].raw.hi);
    }
  }

  /** The block on p's raw block becomes k at p', by writes inside that raw block. */
  lemma SoundRewrap(t: State, m: Memory, live: Blocks, m': Memory, p: int, p': int, k: Block)
    requires Sound(t, m, live) && p in live && k.raw == live[p].raw && BlockOK(m', p', k)
    requires Only(m, m', k.raw.lo, k.raw.hi)
    ensures p' !in live - {p} && Sound(t, m', (live - {p})[p' := k]) && Kept(m, m', live - {p})
  {
    OthersKept(t, m, live, m', p);
    RewrapNew(t, m, live, m', p, p', k);
    HeadedFrame(m, m', live - {p});
    BackedRewrap(t, live, p, p', k);
  }

  lemma BackedRewrap(t: State, live: Blocks, p: int, p': int, k: Block)
    requires Backed(t, live) && p in live && k.raw == live[p].raw && p' !in live - {p}
    ensures Backed(t, (live - {p})[p' := k])
  {
    var live' := (live - {p})[p' := k];
    forall x, y
      ensures !Shared(live', x, y)
    {
      assert !Shared(live, x, y) && !Shared(live, p, y) && !Shared(live, x, p);
    }
    forall r | IsRaw(t, r)
      ensures Under(live', r)
    {
      var q :| q in live && live[q].raw == r;
      assert live'[if q == p then p' else q].raw == r;
    }
  }

  lemma RewrapNew(t: State, m: Memory, live: Blocks, m': Memory, p: int, p': int, k: Block)
    requires Sound(t, m, live) && p in live && k.raw == live[p].raw && BlockOK(m', p', k)
    ensures p' !in live - {p}
  {
    if p' in live - {p} {
      UserInside(m', p', k);
      UserInside(m, p', live[p']);
      assert !Shared(live, p, p');
      RawsApart(t, live[p].raw, live[p'].raw);
    }
  }

  /** The tier at work between t and t' keeps every block that both have handed out. */
  lemma QuietKeepsLive(t: State, u: State, m: Memory, m': Memory, live: Blocks)
    requires TiersOK(t) && TiersOK(u) && Quiet(t, u, m, m')
    requires forall q :: q in live ==> IsRaw(t, live[q].raw) && IsRaw(u, live[q].raw)
    ensures Kept(m, m', live)
  {
    forall q | q in live
      ensures Same(m, m', live[q].raw.lo, live[q].raw.hi)
    {
      QuietKeeps(t, u, m, m', live[q].raw);
    }
  }

  // -------------------------------------------------------------------------- new blocks

  /** What a tier hands out is what rawAllocate needs. */
  lemma GivenFits(t: State, size: nat, g: Grant)
    requires TiersOK(t) && Allowed(t, size, g)
    ensures TiersOK(Serve(t, size, g)) && Gained(t, Serve(t, size, g), Given(t, size, g))
    ensures var r := Given(t, size, g);
            && r.owner == Route(size) && r.lo > 0 && r.lo % 16 == 0 && r.hi <= ADDRESS_LIMIT
            && r.lo + HEADER_SIZE + size <= r.hi && (r.owner.Medium? ==> r.hi <= r.lo + HEADER_SIZE + size + 47)
  {
    ServeKeeps(t, size, g);
    GivenOwner(t, size, g);
    if Given(t, size, g).owner.Medium? { MediumServeKeeps(t, size, g); }
  }

  lemma GivenOwner(t: State, size: nat, g: Grant)
    requires |t.small| == CLASS_COUNT
    ensures Given(t, size, g).owner == Route(size)
    ensures Given(t, size, g).owner.Medium? ==> SMALL_MAX < size <= MEDIUM_MAX
  {}

  /** A write inside the raw block that misses its headers leaves the block in place. */
  lemma WriteKeepsBlock(m: Memory, m': Memory, p: int, k: Block, lo: int, hi: int)
    requires BlockOK(m, p, k) && Only(m, m', lo, hi) && RawUser(k) <= lo < hi <= k.raw.hi
    requires !k.kind.Plain? ==> !Overlap(lo, hi, p - HEADER_SIZE, p)
    ensures BlockOK(m', p, k) && Only(m, m', k.raw.lo, k.raw.hi)
  {
    OnlyWiden(m, m', lo, hi, k.raw.lo, k.raw.hi);
    HeaderKept(m, m', k.raw.lo, k.under, RawMark(k.raw.owner, ALLOCATED), lo, hi);
    if k.kind.Aligned? {
      HeaderKept(m, m', p - HEADER_SIZE, k.size, Mark(ALIGNED_TIER, ALLOCATED, p - RawUser(k)), lo, hi);
    } else if k.kind.Guarded? {
      HeaderKept(m, m', p - HEADER_SIZE, k.size, Mark(DEBUG_TIER, ALLOCATED, FRONT_GUARD), lo, hi);
    }
  }

  lemma FillKeepsBlock(m: Memory, p: int, k: Block, value: Byte)
    requires BlockOK(m, p, k)
    ensures BlockOK(Fill(m, p, k.size, value), p, k)
    ensures Only(m, Fill(m, p, k.size, value), k.raw.lo, k.raw.hi)
  {
    UserInside(m, p, k);
    FillOnly(m, p, k.size, value);
    WriteKeepsBlock(m, Fill(m, p, k.size, value), p, k, p, p + k.size);
  }

  /** A block as rawAllocate leaves it. */
  lemma PlainBlock(m: Memory, r: Raw, size: nat)
    requires size >= 1 && r.lo + HEADER_SIZE + size <= r.hi && r.owner == Route(size)
    requires (r.owner.Medium? ==> r.hi <= r.lo + HEADER_SIZE + size + 47) && r.lo > 0 && r.hi <= ADDRESS_LIMIT
    ensures var m' := PutHeader(m, r.lo, size, RawMark(r.owner, ALLOCATED));
            && BlockOK(m', r.lo + HEADER_SIZE, Block(size, Plain, r, size))
            && Only(m, m', r.lo, r.hi)
  {
    var m' := PutHeader(m, r.lo, size, RawMark(r.owner, ALLOCATED));
    PutHeaderOnly(m, r.lo, size, RawMark(r.owner, ALLOCATED));
    OnlyWiden(m, m', r.lo, r.lo + 16, r.lo, r.hi);
  }

  /** applyGuards around the user pointer of a raw block. */
  function Guarding(m: Memory, user: int, size: nat): Memory {
    var base := user - FRONT_GUARD;
    var m1 := Fill(m, base, FRONT_GUARD - HEADER_SIZE, GUARD_BYTE);
    var m2 := Fill(m1, user + size, REAR_GUARD, GUARD_BYTE);
    PutHeader(m2, user - HEADER_SIZE, size, Mark(DEBUG_TIER, ALLOCATED, FRONT_GUARD))
  }

  /** Every guard byte still has the pattern. */
  predicate GuardsIntact(m: Memory, user: int, size: nat) {
    && (forall x :: user - FRONT_GUARD <= x < user - HEADER_SIZE ==> m.bytes(x) == GUARD_BYTE)
    && (forall x :: user + size <= x < user + size + REAR_GUARD ==> m.bytes(x) == GUARD_BYTE)
  }

  lemma GuardingOnly(m: Memory, user: int, size: nat, hi: int)
    requires user + size + REAR_GUARD <= hi
    ensures Only(m, Guarding(m, user, size), user - FRONT_GUARD, hi)
    ensures HeaderAt(Guarding(m, user, size), user - HEADER_SIZE, size, Mark(DEBUG_TIER, ALLOCATED, FRONT_GUARD))
  {
    var base := user - FRONT_GUARD;
    var m1 := Fill(m, base, 16, GUARD_BYTE);
    var m2 := Fill(m1, user + size, REAR_GUARD, GUARD_BYTE);
    var mark := Mark(DEBUG_TIER, ALLOCATED, FRONT_GUARD);
    var m' := PutHeader(m2, user - 16, size, mark);
    FillOnly(m, base, 16, GUARD_BYTE);
    FillOnly(m1, user + size, REAR_GUARD, GUARD_BYTE);
    PutHeaderOnly(m2, user - 16, size, mark);
    OnlyWiden(m, m1, base, base + 16, base, hi);
    OnlyWiden(m1, m2, user + size, user + size + REAR_GUARD, base, hi);
    OnlyWiden(m2, m', user - 16, user, base, hi);
    OnlyTrans(m, m1, m2, base, hi);
    OnlyTrans(m, m2, m', base, hi);
  }

  lemma GuardingIntact(m: Memory, user: int, size: nat)
    ensures GuardsIntact(Guarding(m, user, size), user, size)
  {
    var base := user - FRONT_GUARD;
    var m1 := Fill(m, base, 16, GUARD_BYTE);
    var m2 := Fill(m1, user + size, REAR_GUARD, GUARD_BYTE);
    var mark := Mark(DEBUG_TIER, ALLOCATED, FRONT_GUARD);
    PutHeaderOnly(m2, user - 16, size, mark);
    assert Same(m2, PutHeader(m2, user - 16, size, mark), base, base + 16);
    assert Same(m2, PutHeader(m2, user - 16, size, mark), user + size, user + size + REAR_GUARD);
  }

  lemma GuardedBlock(m: Memory, r: Raw, size: nat)
    requires size >= 1
    requires BlockOK(m, r.lo + HEADER_SIZE, Block(size + 64, Plain, r, size + 64)) == true
    ensures var user := r.lo + HEADER_SIZE + FRONT_GUARD;
            var m' := Guarding(m, user, size);
            && BlockOK(m', user, Block(size, Guarded, r, size + 64)) == true
            && Only(m, m', r.lo, r.hi) == true && GuardsIntact(m', user, size) == true
  {
    var user := r.lo + HEADER_SIZE + FRONT_GUARD;
    var m' := Guarding(m, user, size);
    GuardingOnly(m, user, size, r.hi);
    GuardingIntact(m, user, size);
    HeaderKept(m, m', r.lo, size + 64, RawMark(r.owner, ALLOCATED), user - FRONT_GUARD, r.hi);
    OnlyWiden(m, m', user - FRONT_GUARD, r.hi, r.lo, r.hi);
  }

  /** The shim of alignedAllocate at user. */
  function Shimming(m: Memory, user: int, size: nat, offset: nat): Memory {
    PutHeader(m, user - HEADER_SIZE, size, Mark(ALIGNED_TIER, ALLOCATED, offset))
  }

  lemma AlignedBlock(m: Memory, r: Raw, under: nat, user: int, size: nat)
    requires size >= 1 && BlockOK(m, r.lo + HEADER_SIZE, Block(under, Plain, r, under)) == true
    requires r.lo + HEADER_SIZE + 16 <= user && user + size <= r.lo + HEADER_SIZE + under
    requires (user - (r.lo + HEADER_SIZE)) % 16 == 0 && user - (r.lo + HEADER_SIZE) < 0x1_0000_0000
    ensures var offset := user - (r.lo + HEADER_SIZE);
            var m' := Shimming(m, user, size, offset);
            && BlockOK(m', user, Block(size, Aligned, r, under)) == true
            && Only(m, m', r.lo, r.hi) == true
  {
    ShimmingOnly(m, r, RawMark(r.owner, ALLOCATED), under, user, size);
  }

  lemma ShimmingOnly(m: Memory, r: Raw, mark: Mark, under: nat, user: int, size: nat)
    requires HeaderAt(m, r.lo, under, mark) && r.lo + HEADER_SIZE + 16 <= user <= r.hi
    ensures var offset := user - (r.lo + HEADER_SIZE);
            var m' := Shimming(m, user, size, offset);
            && Only(m, m', r.lo, r.hi) && HeaderAt(m', r.lo, under, mark)
            && HeaderAt(m', user - HEADER_SIZE, size, Mark(ALIGNED_TIER, ALLOCATED, offset))
  {
    var shim := Mark(ALIGNED_TIER, ALLOCATED, user - (r.lo + HEADER_SIZE));
    var m' := PutHeader(m, user - 16, size, shim);
    PutHeaderOnly(m, user - 16, size, shim);
    OnlyWiden(m, m', user - 16, user, r.lo, r.hi);
    HeaderKept(m, m', r.lo, under, mark, user - 16, user);
  }

  // -------------------------------------------------------------------------- accounting

  /** The bytes set aside in a raw block: its class, or the payload that its tier gave. */
  function RawReserved(r: Raw): int {
    match r.owner
    case Small(c) => if c < CLASS_COUNT then ClassSize(c) else 0
    case _ => r.hi - r.lo - HEADER_SIZE
  }

  /** The same, folded. */
  ghost predicate Reserves(r: Raw, n: int) {
    forall key {:trigger Opened(r, key)} :: Opened(r, key) ==> n == RawReserved(r)
  }

  function ReservedFor(k: Block): int {
    RawReserved(k.raw)
  }

  function SizeOf(k: Block): int {
    k.size
  }

  lemma ReservedCovers(m: Memory, p: int, k: Block)
    requires BlockOK(m, p, k)
    ensures k.size <= ReservedFor(k)
    ensures k.raw.owner.Medium? && k.kind.Plain? ==> ReservedFor(k) <= k.size + 47
  {
    if k.raw.owner.Small? { assert IsLeastClass(CLASS_SIZES, k.under, ClassIndex(k.under)); }
  }

  /** The reserved figure is, for a small block, the least size of the class table that holds
      what was asked of the tier; for any other, all that follows the universal header. */
  lemma ReservedExact(m: Memory, p: int, k: Block)
    requires BlockOK(m, p, k)
    ensures k.under <= 4096 ==>
              && ReservedFor(k) in CLASS_SIZES && k.under <= ReservedFor(k)
              && forall n :: n in CLASS_SIZES && k.under <= n ==> ReservedFor(k) <= n
    ensures k.under > 4096 ==> k.raw.lo + 16 + ReservedFor(k) == k.raw.hi
  {
    if k.under <= 4096 { LeastSize(k.under); }
  }

  /** f summed over the issued blocks. */
  ghost function Total(live: Blocks, f: Block -> int): int {
    Sum(live.Keys, (p: int) => if p in live then f(live[p]) else 0)
  }

  lemma TotalAdd(live: Blocks, f: Block -> int, p: int, k: Block)
    requires p !in live
    ensures Total(live[p := k], f) == Total(live, f) + f(k)
  {
    var live' := live[p := k];
    var g := (x: int) => if x in live' then f(live'[x]) else 0;
    assert live'.Keys == live.Keys + {p};
    SumInsert(live.Keys, g, p);
    SumCongruent(live.Keys, g, (x: int) => if x in live then f(live[x]) else 0);
  }

  lemma TotalRemove(live: Blocks, f: Block -> int, p: int)
    requires p in live
    ensures Total(live - {p}, f) == Total(live, f) - f(live[p])
  {
    TotalAdd(live - {p}, f, p, live[p]);
    assert (live - {p})[p := live[p]] == live;
  }

  lemma TotalAtMost(live: Blocks, f: Block -> int, g: Block -> int)
    requires forall p :: p in live ==> f(live[p]) <= g(live[p])
    ensures Total(live, f) <= Total(live, g)
    decreases |live.Keys|
  {
    if live.Keys != {} {
      var p := Pick(live.Keys);
      TotalRemove(live, f, p);
      TotalRemove(live, g, p);
      assert (live - {p}).Keys == live.Keys - {p};
      TotalAtMost(live - {p}, f, g);
    }
  }
}
