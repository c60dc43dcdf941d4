/** The allocator behind the public interface: routing, headers, shims, the debug layer
    and the statistics, over whatever the tiers answer. */
module AllocatorImpls {
  import opened Folding
  import opened Words
  import opened SizeClasses
  import opened Statistics
  import opened Tiers
  import opened TierWrites
  import opened RawMemory
  import opened FacadeState
  import opened FreedBlocks
  import opened FacadeSteps
  import opened FacadeViews
  import opened DebugLayers
  import opened Alignment

  const MAX_REQUEST: nat := 0x4000_0000_0000

  datatype Error = OutOfMemory | SizeOverflow | InvalidAlignment | InvalidPointer | DoubleFree | HeapCorruption

  datatype Outcome = Ok(ptr: int) | Err(error: Error)

  datatype Report = Report(error: Error, ptr: int)

  datatype Config = Config(guards: bool, poisoning: bool, tracking: bool)

  /** A request of zero bytes is served as one byte. */
  function Normal(size: nat): nat {
    if size == 0 then 1 else size
  }

  predicate GoodAlignment(alignment: nat) {
    IsPowerOfTwo(alignment) && alignment <= MAX_ALIGNMENT
  }

  /** The powers of two up to 2^30. */
  lemma GoodAlignmentExact(alignment: nat)
    ensures GoodAlignment(alignment) <==> exists k: nat :: k <= 30 && alignment == Pow2(k)
  {
    LimitPower();
    IsPowerOfTwoExact(alignment);
    if GoodAlignment(alignment) {
      var k: nat :| alignment == Pow2(k);
      ExponentBound(k, 30);
    }
    forall k: nat | k <= 30 && alignment == Pow2(k)
      ensures GoodAlignment(alignment)
    {
      Pow2Monotone(k, 30);
    }
  }

  lemma LimitPower()
    ensures Pow2(30) == MAX_ALIGNMENT
  {
    assert Pow2(15) == 0x8000;
    Pow2Add(15, 15);
  }

  class AllocatorImpl {
    const config: Config
    const debug: DebugLayer
    var mem: Memory
    var stats: Counters
    var errors: seq<Report>
    ghost var tiers: TierState
    ghost var live: Blocks
    ghost var issued: set<int>
    ghost var retired: Blocks

    ghost function Now(): View
      reads this, debug
    {
      View(tiers, mem, stats, live, issued, retired, debug.live, debug.freed)
    }

    ghost predicate Valid()
      reads this, debug
    {
      Consistent(Now(), config.tracking) == true
    }

    /** The tiers may be in any state in which nothing is handed out. */
    constructor (config: Config, mem: Memory, ghost start: TierState, ghost none: Blocks)
      requires Sound(start, mem, none) && none.Keys == {}
      ensures Valid() && this.config == config && live == none == retired && issued == {} && errors == []
      ensures fresh(debug) && tiers == start && NothingYet(stats)
    {
      this.config, this.mem, this.errors := config, mem, [];
      stats := Counters(0, 0, 0, 0, 0, 0, 0, 0);
      debug := new DebugLayer();
      tiers, live, issued, retired := start, none, {}, none;
      new;
      NothingIssued(Now(), config.tracking);
    }

    method Tell(error: Error, ptr: int)
      modifies this`errors
      ensures errors == old(errors) + [Report(error, ptr)]
    {
      errors := errors + [Report(error, ptr)];
    }

    // ---------------------------------------------------------------------- raw blocks

    /** rawAllocate: routes by size and writes the universal header. */
    method RawAllocate(size: nat, answer: Answer, ghost grant: Grant)
      returns (user: int, reserved: int, ghost r: Raw)
      requires Valid() && size >= 1 && AnswerOK(tiers, size, answer, grant) == true
      modifies this`mem, this`tiers
      ensures answer.Refused? ==>
                user == 0 && mem == old(mem) && tiers == old(tiers) && Short(tiers, size, grant) == true
      ensures answer.Served? ==>
                && Handed(old(tiers), tiers, size, grant, r) == true
                && user == r.lo + HEADER_SIZE > 0 && reserved == RawReserved(r)
                && RawSound(old(mem), live, tiers, mem, r, size) == true
                && Only(answer.writes(old(mem)), mem, r.lo, r.hi) == true
      ensures answer.Served? ==> r.lo == answer.block && (r.owner.Small? <==> size <= 4096) && (r.owner.Large? <==> size > 0x4_0000)
      ensures answer.Served? && size <= 4096 ==>
                && reserved in CLASS_SIZES && size <= reserved
                && forall n :: n in CLASS_SIZES && size <= n ==> reserved <= n
      ensures answer.Served? && size > 4096 ==> user + reserved == r.hi
    {
      if answer.Refused? {
        OpenRefusal(tiers, size, answer, grant);
        return 0, 0, Raw(Large, 0, 0);
      }
      ghost var t;
      t, r := RawServedIn(Now(), config.tracking, size, answer, grant);
      var code;
      code, reserved := Routed(size, answer.capacity);
      if size <= SMALL_MAX { LeastSize(size); }
      mem := PutHeader(answer.writes(mem), answer.block, size, Mark(code, ALLOCATED, 0));
      user := answer.block + HEADER_SIZE;
      tiers := t;
    }

    function RoutedReserve(size: nat, capacity: nat): int {
      if size <= SMALL_MAX then ClassSize(ClassIndex(size)) else capacity - HEADER_SIZE
    }

    /** The tier that a raw request goes to, and the bytes reserved there. */
    method Routed(size: nat, capacity: nat) returns (code: nat, reserved: int)
      ensures code == TierCode(Route(size)) && reserved == RoutedReserve(size, capacity)
    {
      if size <= SMALL_MAX {
        return 0x51, ClassSize(ClassIndex(size));
      } else if size <= MEDIUM_MAX {
        return 0x52, capacity - HEADER_SIZE;
      } else {
        return 0x53, capacity - HEADER_SIZE;
      }
    }

    /** rawDeallocate: finds the tier and the class in the header again, marks it freed,
        and hands the block back. */
    method RawDeallocate(raw: int, taken: Taken, ghost r: Raw, ghost under: nat, ghost via: Via) returns (reserved: int)
      requires HeaderAt(mem, r.lo, under, RawMark(r.owner, ALLOCATED)) && raw == r.lo + HEADER_SIZE
      requires r.owner == Route(under) && under < 0x1_0000_0000_0000_0000 && TakenOK(tiers, r, taken, via) == true
      modifies this`mem, this`tiers
      ensures mem == taken.writes(MarkRaw(old(mem), r)) && HandedBack(old(tiers), tiers, r, via) == true
      ensures reserved == RawReserved(r)
      ensures under <= 4096 ==>
                && reserved in CLASS_SIZES && under <= reserved
                && forall n :: n in CLASS_SIZES && under <= n ==> reserved <= n
      ensures under > 4096 ==> raw + reserved == r.hi
    {
      OpenTaken(tiers, r, taken, via);
      HeaderReads(mem, r.lo, under, RawMark(r.owner, ALLOCATED));
      var header := raw - HEADER_SIZE;
      var tier := TierAt(mem, header);
      if tier == 0x51 {
        reserved := ClassSize(ClassIndex(SizeAt(mem, header)));
        mem := SetState(mem, header, FREED);
      } else if tier == 0x52 {
        mem := SetState(mem, header, FREED);
        reserved := taken.capacity - HEADER_SIZE;
      } else {
        reserved := taken.capacity - HEADER_SIZE;
      }
      if under <= SMALL_MAX { LeastSize(under); }
      mem := taken.writes(mem);
      tiers := Release(tiers, r, via);
    }

    // ---------------------------------------------------------------------- allocation

    /** What allocate asks of the tiers. */
    function Asked(size: nat): nat {
      Normal(size) + Dress(config.guards)
    }

    /** The statistics and the registry learn about a new block. */
    method Register(user: int, size: nat, reserved: nat)
      modifies this`stats, this`issued, this`retired, debug
      ensures stats == Recorded(old(stats), size, reserved) && issued == old(issued) + {user} && retired == map[]
      ensures debug.live == if config.tracking then old(debug.live)[user := size] else old(debug.live)
      ensures debug.freed == if config.tracking then old(debug.freed) - {user} else old(debug.freed)
    {
      stats := Recorded(stats, size, reserved);
      if config.tracking {
        debug.Track(user, size);
      }
      issued, retired := issued + {user}, map[];
    }

    /** allocate from the raw block on: the guards, the poison, and the books. */
    method Dressing(n: nat, base: int, reserved: int, ghost v: View, ghost raw: Raw) returns (user: int)
      requires n >= 1 && base == raw.lo + HEADER_SIZE && Reserves(raw, reserved) == true
      requires Consistent(v, config.tracking) == true && Now() == v.(tiers := tiers, mem := mem)
      requires RawSound(v.mem, live, tiers, mem, raw, n + Dress(config.guards)) == true
      modifies this`mem, this`live, this`stats, this`issued, this`retired, debug
      ensures user == base + (if config.guards then 32 else 0)
      ensures Valid() && Issued(v, Now(), user, DressedBlock(n, raw, config.guards)) == true
      ensures Only(old(mem), mem, raw.lo, raw.hi) == true
      ensures config.poisoning ==> Filled(mem, user, n, ALLOC_POISON) == true
      ensures config.guards ==> GuardsIntact(mem, user, n) == true
    {
      assert Opened(raw, 0);
      AllocateKeeps(v, config.tracking, tiers, mem, raw, n, config.guards, config.poisoning);
      user := base;
      if config.guards {
        user := user + FRONT_GUARD;
        mem := Guarding(mem, user, n);
      }
      if config.poisoning {
        mem := Fill(mem, user, n, ALLOC_POISON);
      }
      Register(user, n, reserved);
      live := live[user := DressedBlock(n, raw, config.guards)];
      assert Now() == IssuedView(v, tiers, mem, user, DressedBlock(n, raw, config.guards), config.tracking);
    }

    /** The size check and the raw request, common to both allocations. */
    method Obtain(n: nat, asked: nat, answer: Answer, ghost grant: Grant)
      returns (r: Outcome, reserved: int, ghost raw: Raw)
      requires Valid() && asked >= 1 && (n <= MAX_REQUEST ==> AnswerOK(tiers, asked, answer, grant) == true)
      modifies this`mem, this`tiers, this`errors
      ensures r.Ok? <==> n <= MAX_REQUEST && answer.Served?
      ensures r.Err? ==>
                && Now() == old(Now()) && errors == old(errors) + [Report(r.error, 0)]
                && r.error == (if n > MAX_REQUEST then SizeOverflow else OutOfMemory)
                && (r.error == OutOfMemory ==> Short(tiers, asked, grant) == true)
      ensures r.Ok? ==>
                && errors == old(errors) && Handed(old(tiers), tiers, asked, grant, raw) == true
                && raw.lo == answer.block && r.ptr == raw.lo + HEADER_SIZE > 0 && Reserves(raw, reserved) == true
                && RawSound(old(mem), live, tiers, mem, raw, asked) == true
                && Only(answer.writes(old(mem)), mem, raw.lo, raw.hi) == true
    {
      if n > MAX_REQUEST {
        Tell(SizeOverflow, 0);
        return Err(SizeOverflow), 0, Raw(Large, 0, 0);
      }
      var base;
      base, reserved, raw := RawAllocate(asked, answer, grant);
      if base == 0 {
        Tell(OutOfMemory, 0);
        return Err(OutOfMemory), 0, raw;
      }
      return Ok(base), reserved, raw;
    }

    /** allocate: a fresh block of the size asked for, guarded and poisoned as configured;
        or a reported error and no change. */
    method Allocate(size: nat, answer: Answer, ghost grant: Grant) returns (r: Outcome, ghost raw: Raw)
      requires Valid() && (Normal(size) <= MAX_REQUEST ==> AnswerOK(tiers, Asked(size), answer, grant) == true)
      modifies this, debug
      ensures Valid()
      ensures r.Ok? <==> Normal(size) <= MAX_REQUEST && answer.Served?
      ensures r.Err? ==>
                && Now() == old(Now()) && errors == old(errors) + [Report(r.error, 0)]
                && r.error == (if Normal(size) > MAX_REQUEST then SizeOverflow else OutOfMemory)
                && (r.error == OutOfMemory ==> Short(tiers, Asked(size), grant) == true)
      ensures r.Ok? ==> raw.lo == answer.block && r.ptr == raw.lo + (if config.guards then 48 else 16)
      ensures r.Ok? ==>
                && Handed(old(tiers), tiers, Asked(size), grant, raw) == true && errors == old(errors)
                && Issued(old(Now()), Now(), r.ptr, DressedBlock(Normal(size), raw, config.guards)) == true
                && (config.poisoning ==> Filled(mem, r.ptr, Normal(size), ALLOC_POISON) == true)
                && (config.guards ==> GuardsIntact(mem, r.ptr, Normal(size)) == true)
                && Only(answer.writes(old(mem)), mem, raw.lo, raw.hi) == true
    {
      ghost var v := Now();
      var reserved;
      r, reserved, raw := Obtain(Normal(size), Asked(size), answer, grant);
      if r.Ok? {
        ghost var m := mem;
        var user := Dressing(Normal(size), r.ptr, reserved, v, raw);
        OnlyTrans(answer.writes(v.mem), m, mem, raw.lo, raw.hi);
        r := Ok(user);
      }
    }

    // ----------------------------------------------------------------- aligned allocation

    /** What alignedAllocate asks of the tiers. */
    function AskedAligned(alignment: nat, size: nat): nat {
      if alignment <= 16 then Asked(size) else Normal(size) + alignment
    }

    /** How it wraps the raw block. */
    function AlignedAs(alignment: nat, size: nat, raw: Raw): Block {
      if alignment <= 16 then DressedBlock(Normal(size), raw, config.guards)
      else Block(Normal(size), Aligned, raw, Normal(size) + alignment)
    }

    /** alignedAllocate from the raw block on: the shim, the poison, and the books. */
    method Shim(n: nat, alignment: nat, base: int, reserved: int, ghost v: View, ghost raw: Raw, ghost before: Memory)
      returns (user: int)
      requires Only(before, mem, raw.lo, raw.hi) == true
      requires n >= 1 && base == raw.lo + HEADER_SIZE > 0 && Reserves(raw, reserved) == true
      requires Aligning(alignment) == true && 16 < alignment <= MAX_ALIGNMENT
      requires Consistent(v, config.tracking) == true && Now() == v.(tiers := tiers, mem := mem)
      requires RawSound(v.mem, live, tiers, mem, raw, n + alignment) == true
      modifies this`mem, this`live, this`stats, this`issued, this`retired, debug
      ensures Valid() && Issued(v, Now(), user, Block(n, Aligned, raw, n + alignment)) == true
      ensures user > 0 && AlignedTo(user, alignment) == true && 16 <= user - base <= alignment
      ensures Only(before, mem, raw.lo, raw.hi) == true
      ensures config.poisoning ==> Filled(mem, user, n, ALLOC_POISON) == true
    {
      ghost var m := mem;
      assert Opened(raw, 0);
      AlignKeeps(v, config.tracking, tiers, mem, raw, n, alignment, config.poisoning);
      user := AlignedUser(base, alignment);
      mem := Shimming(mem, user, n, user - base);
      if config.poisoning {
        mem := Fill(mem, user, n, ALLOC_POISON);
      }
      OnlyTrans(before, m, mem, raw.lo, raw.hi);
      Register(user, n, reserved);
      live := live[user := Block(n, Aligned, raw, n + alignment)];
      assert Now() == IssuedView(v, tiers, mem, user, Block(n, Aligned, raw, n + alignment), config.tracking);
    }

    /** alignedAllocate: as allocate, at a multiple of the alignment. */
    method AlignedAllocate(alignment: nat, size: nat, answer: Answer, ghost grant: Grant)
      returns (r: Outcome, ghost raw: Raw)
      requires Valid()
      requires GoodAlignment(alignment) && Normal(size) <= MAX_REQUEST ==>
                 AnswerOK(tiers, AskedAligned(alignment, size), answer, grant) == true
      modifies this, debug
      ensures Valid()
      ensures r.Ok? <==> GoodAlignment(alignment) && Normal(size) <= MAX_REQUEST && answer.Served?
      ensures r.Err? ==>
                && Now() == old(Now()) && errors == old(errors) + [Report(r.error, 0)]
                && r.error == (if !GoodAlignment(alignment) then InvalidAlignment
                               else if Normal(size) > MAX_REQUEST then SizeOverflow else OutOfMemory)
                && (r.error == OutOfMemory ==> Short(tiers, AskedAligned(alignment, size), grant) == true)
      ensures r.Ok? ==> raw.lo == answer.block
      ensures r.Ok? ==>
                && AlignedTo(r.ptr, alignment) == true && errors == old(errors)
                && Handed(old(tiers), tiers, AskedAligned(alignment, size), grant, raw) == true
                && Issued(old(Now()), Now(), r.ptr, AlignedAs(alignment, size, raw)) == true
                && (alignment > 16 ==> 16 <= r.ptr - (raw.lo + HEADER_SIZE) <= alignment)
                && (config.poisoning ==> Filled(mem, r.ptr, Normal(size), ALLOC_POISON) == true)
                && (config.guards && alignment <= 16 ==> GuardsIntact(mem, r.ptr, Normal(size)) == true)
                && Only(answer.writes(old(mem)), mem, raw.lo, raw.hi) == true
    {
      if !IsPowerOfTwo(alignment) || alignment > MAX_ALIGNMENT {
        Tell(InvalidAlignment, 0);
        return Err(InvalidAlignment), Raw(Large, 0, 0);
      }
      if alignment <= 16 {
        r, raw := Allocate(size, answer, grant);
        if r.Ok? { SmallAlignment(r.ptr, alignment); }
        return;
      }
      r, raw := AllocateShimmed(alignment, size, answer, grant);
    }

    method AllocateShimmed(alignment: nat, size: nat, answer: Answer, ghost grant: Grant)
      returns (r: Outcome, ghost raw: Raw)
      requires Valid() && Aligning(alignment) == true && 16 < alignment <= MAX_ALIGNMENT
      requires Normal(size) <= MAX_REQUEST ==> AnswerOK(tiers, Normal(size) + alignment, answer, grant) == true
      modifies this, debug
      ensures Valid()
      ensures r.Ok? <==> Normal(size) <= MAX_REQUEST && answer.Served?
      ensures r.Err? ==> Now() == old(Now()) && errors == old(errors) + [Report(r.error, 0)]
      ensures r.Err? ==> r.error == (if Normal(size) > MAX_REQUEST then SizeOverflow else OutOfMemory)
      ensures r.Err? && r.error == OutOfMemory ==> Short(tiers, Normal(size) + alignment, grant) == true
      ensures r.Ok? ==>
                raw.lo == answer.block && Handed(old(tiers), tiers, Normal(size) + alignment, grant, raw) == true
      ensures r.Ok? ==>
                && AlignedTo(r.ptr, alignment) == true && errors == old(errors)
                && Issued(old(Now()), Now(), r.ptr, Block(Normal(size), Aligned, raw, Normal(size) + alignment)) == true
                && 16 <= r.ptr - (raw.lo + HEADER_SIZE) <= alignment
                && (config.poisoning ==> Filled(mem, r.ptr, Normal(size), ALLOC_POISON) == true)
                && Only(answer.writes(old(mem)), mem, raw.lo, raw.hi) == true
    {
      ghost var v := Now();
      var reserved;
      var n := Normal(size);
      r, reserved, raw := Obtain(n, n + alignment, answer, grant);
      if r.Ok? {
        ghost var t := tiers;
        var user := Shim(n, alignment, r.ptr, reserved, v, raw, answer.writes(v.mem));
        assert tiers == t;
        r := Ok(user);
      }
    }

    // ---------------------------------------------------------------------------- freeing

    /** Without tracking the header is all there is to judge by: a pointer that is not
        issued must not have one that looks as if it were. That of a freed block, while it
        is retired, does not. */
    ghost predicate Readable(p: int)
      reads this
    {
      p == 0 || p in live || p in retired || config.tracking || !LooksIssued(mem, p)
    }

    /** What is reported when the block k at p is freed: corruption, if it is guarded and
        a guard byte has changed. */
    ghost function Corruption(m: Memory, p: int, k: Block): seq<Report> {
      if config.guards && k.kind.Guarded? && !GuardsIntact(m, p, k.size) then [Report(HeapCorruption, p)] else []
    }

    /** deallocate of an issued block. */
    method FreeLive(p: int, taken: Taken, ghost via: Via)
      requires Valid() && p in live && TakenOK(tiers, live[p].raw, taken, via) == true
      modifies this, debug
      ensures Valid() && TakenBack(old(Now()), Now(), p) == true
      ensures HandedBack(old(tiers), tiers, old(live[p].raw), via) == true
      ensures mem == taken.writes(Wiped(old(mem), p, old(live[p]), config.poisoning))
      ensures errors == old(errors) + old(Corruption(mem, p, live[p]))
    {
      ghost var v, k := Now(), live[p];
      LiveHeader(v, config.tracking, p);
      var requested, tier := SizeAt(mem, p - HEADER_SIZE), TierAt(mem, p - HEADER_SIZE);
      CheckGuards(p, requested, tier);
      WipedOnly(mem, p, k, config.poisoning);
      ghost var wiped := Wiped(mem, p, k, config.poisoning);
      ghost var t := FreeKeeps(v, config.tracking, p, taken, via, wiped);
      var reserved := Wipe(p, requested, tier, taken, k, via);
      HandedBackOnce(v.tiers, t, tiers, k.raw, via);
      Unregister(p, requested, reserved);
      live, retired := live - {p}, Survivors(tiers, retired[p := k]);
      assert Now() == FreedView(v, t, taken.writes(wiped), p, config.tracking);
    }

    /** The statistics and the registry forget about a block. */
    method Unregister(p: int, size: nat, reserved: nat)
      modifies this`stats, debug
      ensures stats == Freed(old(stats), size, reserved)
      ensures debug.live == if config.tracking then old(debug.live) - {p} else old(debug.live)
      ensures debug.freed == if config.tracking && p in old(debug.live) then old(debug.freed) + {p} else old(debug.freed)
    {
      stats := Freed(stats, size, reserved);
      if config.tracking {
        var was := debug.Untrack(p);
      }
    }

    method CheckGuards(p: int, requested: nat, tier: nat)
      modifies this`errors
      ensures errors == old(errors) + (
                if config.guards && tier == DEBUG_TIER && !GuardsIntact(mem, p, requested)
                then [Report(HeapCorruption, p)] else [])
    {
      if tier == DEBUG_TIER && config.guards {
        var ok := VerifyGuards(mem, p, requested);
        if !ok {
          Tell(HeapCorruption, p);
        }
      }
    }

    /** Poison, the state of the shim, and rawDeallocate. */
    method Wipe(p: int, requested: nat, tier: nat, taken: Taken, ghost k: Block, ghost via: Via) returns (reserved: int)
      requires BlockOK(mem, p, k) == true && UserHeader(mem, p, k) == true && TakenOK(tiers, k.raw, taken, via) == true
      requires requested == k.size && tier == TierAt(mem, p - HEADER_SIZE) && k.raw.owner == Route(k.under)
      requires k.under < 0x1_0000_0000_0000_0000
      modifies this`mem, this`tiers
      ensures mem == taken.writes(Wiped(old(mem), p, k, config.poisoning))
      ensures HandedBack(old(tiers), tiers, k.raw, via) == true && reserved == RawReserved(k.raw)
    {
      PoisonKeeps(mem, p, k, config.poisoning, FREE_POISON);
      ShimMarkedOnly(Poisoned(mem, p, k.size, config.poisoning, FREE_POISON), p, k);
      if config.poisoning {
        mem := Fill(mem, p, requested, FREE_POISON);
      }
      if tier == DEBUG_TIER || tier == ALIGNED_TIER {
        BlockHeader(mem, p, k);
        var raw := p - OffsetAt(mem, p - HEADER_SIZE);
        mem := SetState(mem, p - HEADER_SIZE, FREED);
        reserved := RawDeallocate(raw, taken, k.raw, k.under, via);
      } else {
        reserved := RawDeallocate(p, taken, k.raw, k.under, via);
      }
    }

    /** deallocate: takes back an issued block, ignores null, and reports anything else
        without touching it. */
    method Deallocate(p: int, taken: Taken, ghost via: Via) returns (r: Outcome)
      requires Valid() && Readable(p)
      requires p in live ==> TakenOK(tiers, live[p].raw, taken, via) == true
      modifies this, debug
      ensures Valid()
      ensures r.Ok? <==> p == 0 || p in old(live)
      ensures r.Ok? ==> r.ptr == 0
      ensures p == 0 ==> Now() == old(Now()) && errors == old(errors)
      ensures r.Err? ==>
                && Now() == old(Now()) && errors == old(errors) + [Report(r.error, p)]
                && (p in old(retired) ==> r.error == DoubleFree)
      ensures config.tracking && p != 0 && p !in old(live) ==>
                r == Err(if p in old(issued) then DoubleFree else InvalidPointer)
      ensures !config.tracking && p != 0 && p !in old(live) ==>
                r == Err(if 0x51 <= old(TierAt(mem, p - 16)) <= 0x55 && old(StateAt(mem, p - 16)) == 0xF4EE
                         then DoubleFree else InvalidPointer)
      ensures p in old(live) ==>
                && TakenBack(old(Now()), Now(), p) == true
                && HandedBack(old(tiers), tiers, old(live[p].raw), via) == true
                && mem == taken.writes(Wiped(old(mem), p, old(live[p]), config.poisoning))
                && errors == old(errors) + old(Corruption(mem, p, live[p]))
    {
      Judge(p);
      if p == 0 {
        return Ok(0);
      }
      if config.tracking && p !in debug.live {
        var error := if p in debug.freed then DoubleFree else InvalidPointer;
        Tell(error, p);
        return Err(error);
      }
      var tier, state := TierAt(mem, p - HEADER_SIZE), StateAt(mem, p - HEADER_SIZE);
      if !ValidTier(tier) || (state != ALLOCATED && state != FREED) {
        Tell(InvalidPointer, p);
        return Err(InvalidPointer);
      }
      if state == FREED {
        Tell(DoubleFree, p);
        return Err(DoubleFree);
      }
      FreeLive(p, taken, via);
      return Ok(0);
    }

    /** What the registry and the headers say about a pointer. */
    lemma Judge(p: int)
      requires Valid()
      ensures p in live ==>
                p != 0 && SizeAt(mem, p - HEADER_SIZE) == live[p].size && LooksIssued(mem, p)
      ensures config.tracking ==>
                (p in debug.live <==> p in live) && (p in debug.freed <==> p in issued && p !in live)
      ensures p in retired ==> FreedMark(mem, p) && p in issued && p !in live && p != 0
      ensures 0 !in issued
    {
      if p in live { LiveHeader(Now(), config.tracking, p); }
      if config.tracking { TrackedExactly(Now(), p); }
      if p in retired { RetiredHeader(Now(), config.tracking, p); }
      OpenView(Now(), config.tracking);
    }

    /** Whether deallocate takes p for an issued block, by the registry and the header: if it
        is one, and apart from those exactly where it is not readable. */
    method Accepts(p: int) returns (yes: bool)
      requires Valid()
      ensures yes <==> p in live || !Readable(p)
    {
      Judge(p);
      return p != 0 && (config.tracking ==> p in debug.live) && LooksIssued(mem, p);
    }

    /** The raw block under an issued pointer, found as deallocate finds it: through the
        shim, if there is one, to the universal header, which names tier and class. */
    method Locate(p: int) returns (block: int, owner: Owner)
      requires Valid() && p in live
      ensures block == live[p].raw.lo && owner == live[p].raw.owner
    {
      ghost var k := live[p];
      LiveHeader(Now(), config.tracking, p);
      RawHeader(mem, p, k);
      var tier := TierAt(mem, p - HEADER_SIZE);
      var raw := if tier == DEBUG_TIER || tier == ALIGNED_TIER then p - OffsetAt(mem, p - HEADER_SIZE) else p;
      block := raw - HEADER_SIZE;
      tier := TierAt(mem, block);
      if tier == 0x51 {
        owner := Small(ClassIndex(SizeAt(mem, block)));
      } else if tier == 0x52 {
        owner := Medium;
      } else {
        owner := Large;
      }
    }

    // ---------------------------------------------------------------------- size and move

    /** allocationSize: the size asked for, or zero if the pointer is not issued; without
        tracking, bytes below it that look like the header of an issued block are taken for
        one. */
    method AllocationSize(p: int) returns (n: nat)
      requires Valid()
      ensures n == if p in live then live[p].size
                   else if p == 0 || config.tracking || !LooksIssued(mem, p) then 0 else SizeAt(mem, p - HEADER_SIZE)
    {
      Judge(p);
      if p == 0 {
        return 0;
      }
      if config.tracking && p !in debug.live {
        return 0;
      }
      if !ValidTier(TierAt(mem, p - HEADER_SIZE)) || StateAt(mem, p - HEADER_SIZE) != ALLOCATED {
        return 0;
      }
      return SizeAt(mem, p - HEADER_SIZE);
    }

    /** The tier can take p back once it has served the new request. */
    ghost predicate CanMoveFrom(p: int, size: nat, grant: Grant, taken: Taken, via: Via)
      requires p in live
      reads this
    {
      forall t, raw {:trigger Handed(tiers, t, Asked(size), grant, raw)} ::
        Handed(tiers, t, Asked(size), grant, raw) ==> TakenOK(t, live[p].raw, taken, via)
    }

    /** reallocate of an issued block to a size that is not zero. */
    method Relocate(p: int, size: nat, answer: Answer, ghost grant: Grant, taken: Taken, ghost via: Via)
      returns (r: Outcome, ghost raw: Raw)
      requires Valid() && p in live && size > 0
      requires size <= MAX_REQUEST ==> AnswerOK(tiers, Asked(size), answer, grant) == true
      requires CanMoveFrom(p, size, grant, taken, via) == true
      modifies this, debug
      ensures Valid()
      ensures r.Ok? <==> size <= MAX_REQUEST && answer.Served?
      ensures r.Err? ==>
                && Now() == old(Now()) && errors == old(errors) + [Report(r.error, 0)]
                && r.error == if size > MAX_REQUEST then SizeOverflow else OutOfMemory
      ensures r.Ok? ==>
                && Moved(old(Now()), Now(), p, r.ptr, DressedBlock(size, raw, config.guards)) == true
                && errors == old(errors) + old(Corruption(mem, p, live[p]))
    {
      ghost var v := Now();
      LiveHeader(v, config.tracking, p);
      var before := AllocationSize(p);
      r, raw := Allocate(size, answer, grant);
      if r.Ok? {
        CopyAndFree(p, r.ptr, Min(before, size), taken, v, DressedBlock(size, raw, config.guards), via);
      }
    }

    /** The copy of a move: n bytes of the block at p go to the front of the block at q. */
    method CopyOver(q: int, p: int, n: nat)
      requires Valid() && q in live && 0 < n <= live[q].size
      modifies this`mem
      ensures Valid() && mem == Copy(old(mem), q, p, n) && Kept(old(mem), mem, live - {q}) == true
    {
      ghost var v := Now();
      CopyKeeps(v, config.tracking, q, p, n);
      mem := Copy(mem, q, p, n);
      assert Now() == v.(mem := mem);
    }

    method CopyAndFree(p: int, q: int, n: nat, taken: Taken, ghost v: View, ghost k: Block, ghost via: Via)
      requires Valid() && p in v.live && BlockOK(v.mem, p, v.live[p]) == true && Issued(v, Now(), q, k) == true
      requires n == Min(v.live[p].size, k.size) > 0 && TakenOK(tiers, v.live[p].raw, taken, via) == true
      modifies this, debug
      ensures Valid() && Moved(v, Now(), p, q, k) == true
      ensures TakenBack(old(Now()).(mem := Copy(old(mem), q, p, n)), Now(), p) == true
      ensures HandedBack(old(tiers), tiers, v.live[p].raw, via) == true
      ensures mem == taken.writes(Wiped(Copy(old(mem), q, p, n), p, v.live[p], config.poisoning))
      ensures errors == old(errors) + Corruption(v.mem, p, v.live[p])
    {
      ghost var v1 := Now();
      CopyKeeps(v1, config.tracking, q, p, n);
      mem := Copy(mem, q, p, n);
      ghost var m := mem;
      assert Now() == v1.(mem := m);
      if v.live[p].kind.Guarded? { GuardsKept(v, v1, m, p, q, k); }
      FreeLive(p, taken, via);
      MovedByParts(v, v1, m, Now(), p, q, k);
    }

    /** reallocate: null allocates, size zero frees, anything else moves the block. */
    method Reallocate(p: int, size: nat, answer: Answer, ghost grant: Grant, taken: Taken, ghost via: Via)
      returns (r: Outcome, ghost raw: Raw)
      requires Valid() && Readable(p)
      requires (p == 0 || (p in live && size > 0)) && Normal(size) <= MAX_REQUEST ==>
                 AnswerOK(tiers, Asked(size), answer, grant) == true
      requires p in live ==>
                 if size == 0 then TakenOK(tiers, live[p].raw, taken, via) == true
                 else CanMoveFrom(p, size, grant, taken, via) == true
      modifies this, debug
      ensures Valid()
      ensures r.Ok? <==>
                if p == 0 || (p in old(live) && size > 0) then Normal(size) <= MAX_REQUEST && answer.Served?
                else p in old(live)
      ensures r.Err? ==> Now() == old(Now())
      ensures r.Err? ==>
                if p == 0 || p in old(live) then errors == old(errors) + [Report(r.error, 0)]
                else errors == old(errors) + [Report(r.error, p)]
      ensures p != 0 && p !in old(live) && size > 0 ==> r == Err(InvalidPointer)
      ensures config.tracking && p != 0 && p !in old(live) && size == 0 ==>
                r == Err(if p in old(issued) then DoubleFree else InvalidPointer)
      ensures !config.tracking && p != 0 && p !in old(live) && size == 0 ==>
                r == Err(if 0x51 <= old(TierAt(mem, p - 16)) <= 0x55 && old(StateAt(mem, p - 16)) == 0xF4EE
                         then DoubleFree else InvalidPointer)
      ensures p == 0 && r.Ok? ==>
                Issued(old(Now()), Now(), r.ptr, DressedBlock(Normal(size), raw, config.guards)) == true
      ensures p in old(live) && size == 0 ==> r == Ok(0) && TakenBack(old(Now()), Now(), p) == true
      ensures p in old(live) && size > 0 && r.Ok? ==>
                Moved(old(Now()), Now(), p, r.ptr, DressedBlock(size, raw, config.guards)) == true
    {
      raw := Raw(Large, 0, 0);
      Judge(p);
      if p == 0 {
        r, raw := Allocate(size, answer, grant);
        return;
      }
      if size == 0 {
        r := Deallocate(p, taken, via);
        return;
      }
      var before := AllocationSize(p);
      if p in live { LiveHeader(Now(), config.tracking, p); }
      if before == 0 {
        Tell(InvalidPointer, p);
        return Err(InvalidPointer), raw;
      }
      r, raw := Relocate(p, size, answer, grant, taken, via);
    }

    // --------------------------------------------------------------------- other events

    /** A client writes a byte of its block, or spoils a guard byte beside it. */
    method Write(p: int, x: int, value: Byte)
      requires Valid() && p in live && Spoils(live[p], p, x)
      modifies this`mem
      ensures Valid() && Kept(old(mem), mem, live - {p}) == true && mem.bytes(x) == value
      ensures mem == Fill(old(mem), x, 1, value)
      ensures forall y :: y != x ==> mem.bytes(y) == old(mem).bytes(y)
    {
      FillOnly(mem, x, 1, value);
      WriteKeeps(Now(), config.tracking, p, Fill(mem, x, 1, value), x, x + 1);
      ghost var v := Now();
      mem := Fill(mem, x, 1, value);
      assert Now() == v.(mem := mem);
    }

    /** A thread's cache for one class appears, or is flushed when the thread ends. */
    method ThreadMoves(ghost c: nat, ghost step: PoolSystem.Step, writes: Memory -> Memory)
      requires Valid() && MoveOK(tiers, c, step, writes) == true
      modifies this`mem, this`tiers
      ensures Valid() && Kept(old(mem), mem, live) == true && ThreadedTo(old(tiers), tiers, c, step) == true
      ensures mem == writes(old(mem))
    {
      ghost var v := Now();
      ThreadKeeps(v, config.tracking, c, step, writes);
      mem := writes(mem);
      tiers := Threaded(tiers, c, step);
      assert Now() == v.(tiers := tiers, mem := mem);
    }

    /** What the destructor counts as leaks. */
    method LeakCount() returns (n: nat)
      requires Valid()
      ensures n == if config.tracking then |live| else 0
    {
      if !config.tracking {
        return 0;
      }
      OpenView(Now(), true);
      SizesCount(live);
      return |debug.live|;
    }

    /** The figures of the statistics: usage and reservation are sums over the issued
        blocks, and the first is never above the second or the peak. */
    lemma Figures()
      requires Valid()
      ensures stats.liveRequested == Total(live, SizeOf) && stats.liveReserved == Total(live, ReservedFor)
      ensures stats.activeAllocations == |live|
      ensures stats.liveRequested <= stats.liveReserved && stats.liveRequested <= stats.peakUsage
      ensures forall p :: p in live && live[p].under <= 4096 ==>
                ReservedFor(live[p]) in CLASS_SIZES && live[p].under <= ReservedFor(live[p])
      ensures forall p, n :: p in live && live[p].under <= n <= 4096 && n in CLASS_SIZES ==> ReservedFor(live[p]) <= n
      ensures forall p :: p in live && live[p].under > 4096 ==> live[p].raw.lo + 16 + ReservedFor(live[p]) == live[p].raw.hi
    {
      OpenView(Now(), config.tracking);
      ReservedAtLeastUsage(tiers, mem, live, stats);
      forall p | p in live
        ensures live[p].under <= 4096 ==> ReservedFor(live[p]) in CLASS_SIZES && live[p].under <= ReservedFor(live[p])
        ensures forall n :: live[p].under <= n <= 4096 && n in CLASS_SIZES ==> ReservedFor(live[p]) <= n
        ensures live[p].under > 4096 ==> live[p].raw.lo + 16 + ReservedFor(live[p]) == live[p].raw.hi
      {
        ReservedExact(mem, p, live[p]);
      }
    }

    /** Any two issued blocks are apart, and each lies inside one mapping. */
    lemma IssuedApart(p: int, q: int)
      requires Valid() && p in live && q in live && p != q
      ensures !SystemMemory.Overlap(p, p + live[p].size, q, q + live[q].size)
      ensures Mapped(tiers, p, p + live[p].size)
    {
      OpenView(Now(), config.tracking);
      UsersApart(tiers, mem, live, p, q);
      UserInside(mem, p, live[p]);
      var g := RawInside(tiers, live[p].raw);
    }
  }
}
