/** The whole allocator: the facade on the three tiers on one system. What a client sees is
    a map from its pointers to their contents. */
module Allocators {
  import opened Folding
  import opened Words
  import opened Sums
  import opened SystemMemory
  import opened SizeClasses
  import opened PoolSystem
  import opened Pools
  import opened Tiers
  import opened TierSteps
  import opened SecondFree
  import opened TierImages
  import opened Tags
  import opened RawMemory
  import opened FacadeState
  import opened FacadeSteps
  import opened FacadeViews
  import opened FreedBlocks
  import opened Alignment
  import opened AllocatorImpls
  import opened ClientViews
  import opened CentralStates
  import opened CacheUse

  // ----------------------------------------------------------------- shims under nodes

  /** Freeing block b leads from l to l'. */
  ghost predicate FreedFrom(l: SegmentLayout.Layout, l': SegmentLayout.Layout, b: int) {
    SegmentLayout.IsLive(l, b) && l.blocks[b].size > 0 && l' == SegmentLayout.FreeAt(l, b)
  }

  lemma ShimmedBlock(v: View, tracking: bool, p: int)
    requires Consistent(v, tracking) == true && p in v.live && v.live[p].raw.owner.Medium?
    requires v.live[p].kind.Aligned? && p == RawUser(v.live[p]) + 16
    ensures SegmentLayout.IsLive(v.tiers.heap, p - 48) && v.live[p].raw.lo == p - 32
    ensures BlockOK(v.mem, p, v.live[p]) == true && v.tiers.heap.blocks[p - 48].size > 64
  {
    OpenView(v, tracking);
  }

  /** What is left of the shim of p when its block was freed from l to l', with memory m and
      the mappings of the system as they are then; brought out where it is read. */
  ghost predicate ShimLeft(l: SegmentLayout.Layout, l': SegmentLayout.Layout, m: Memory, p: int, mapped: map<int, nat>) {
    forall key {:trigger Opened(p, key)} :: Opened(p, key) ==>
      && FreedFrom(l, l', p - 48) && !LooksIssued(m, p) && (FreedMark(m, p) <==> p - 48 !in l'.blocks)
      && (l'.segs != l.segs ==> forall b :: b in mapped ==> Disjoint(b, mapped[b], p - 16, 16))
  }

  lemma AfterShimFreed(v: View, tracking: bool, p: int, taken: Taken, l': SegmentLayout.Layout, mem: SegmentBins.Mem,
                       mem': SegmentBins.Mem, poison: bool, mapped: map<int, nat>, mapped': map<int, nat>)
    requires Consistent(v, tracking) == true && p in v.live && v.live[p].raw.owner.Medium?
    requires v.live[p].kind.Aligned? && p == RawUser(v.live[p]) + 16 && Housed(v.tiers, mapped)
    requires MediumFreed(taken, v.tiers.heap, l', v.live[p].raw.lo, mem, mem') == true
    requires var b := v.live[p].raw.lo - BLOCK_HEADER_SIZE;
             b in v.tiers.heap.blocks && SegmentGone(v.tiers.heap, l', b, mapped, mapped') == true
    ensures ShimLeft(v.tiers.heap, l', taken.writes(Wiped(v.mem, p, v.live[p], poison)), p, mapped') == true
  {
    ShimRead(v, tracking, p, taken, l', mem, mem', poison);
    ShimmedBlock(v, tracking, p);
    if l'.segs != v.tiers.heap.segs { ShimUnmapped(v.tiers, mapped, l', mapped', p - 48); }
  }

  /** What the header below p says once the tier has the block. */
  lemma ShimRead(v: View, tracking: bool, p: int, taken: Taken, l': SegmentLayout.Layout,
                 mem: SegmentBins.Mem, mem': SegmentBins.Mem, poison: bool)
    requires Consistent(v, tracking) == true && p in v.live && v.live[p].raw.owner.Medium?
    requires v.live[p].kind.Aligned? && p == RawUser(v.live[p]) + 16
    requires MediumFreed(taken, v.tiers.heap, l', v.live[p].raw.lo, mem, mem') == true
    ensures var m := taken.writes(Wiped(v.mem, p, v.live[p], poison));
            !LooksIssued(m, p) && (FreedMark(m, p) <==> p - 48 !in l'.blocks)
    ensures FreedFrom(v.tiers.heap, l', p - 48)
  {
    var m := Wiped(v.mem, p, v.live[p], poison);
    assert Opened(mem', 0);
    ShimmedBlock(v, tracking, p);
    WipedOnly(v.mem, p, v.live[p], poison);
    HeapAfter(v, tracking, p - 48);
    if p - 48 in l'.blocks {
      NodeReplacesShim(m, mem, l', mem', p - 48);
    } else {
      SwallowedShimStays(m, mem, v.tiers.heap, mem', p - 48);
      MarkSame(m, taken.writes(m), p);
    }
  }

  lemma HeapAfter(v: View, tracking: bool, b: int)
    requires Consistent(v, tracking) == true && SegmentLayout.IsLive(v.tiers.heap, b)
    ensures HeapOK(v.tiers.heap) && v.tiers.heap.blocks[b].size > 0 && HeapOK(SegmentLayout.FreeAt(v.tiers.heap, b))
    ensures forall s :: s in SegmentLayout.FreeAt(v.tiers.heap, b).segs ==> s % 16 == 0
    ensures b % 16 == 0
  {
    OpenView(v, tracking);
    FreedHeap(v.tiers.heap, b);
    forall s | s in v.tiers.heap.segs
      ensures s % 16 == 0
    {
      assert IsRegion(v.tiers, Region(Medium, s, SEGMENT_SIZE));
    }
    BlockAligned(v.tiers.heap, b);
  }

  // ------------------------------------------------------------------------- the whole

  class Allocator {
    const impl: AllocatorImpl
    const central: CentralState

    ghost predicate Valid()
      reads impl, impl.debug, central, central.os, central.segments, central.segments.bins, central.large, central.Objects()
    {
      impl.Valid() && central.Valid() && impl.tiers == central.View() && Intact(impl.mem)
    }

    /** The memory m holds every tag, every node and every link as the tiers keep them. */
    ghost predicate Intact(m: Memory)
      reads central, central.segments, central.large
    {
      Reflected(m, central.View(), central.segments.mem) == true
    }

    /** The client's view. */
    ghost function Heap(): map<int, seq<Byte>>
      reads impl
    {
      Held(impl.mem, impl.live)
    }

    ghost function Books(): Ledger
      reads impl
    {
      Ledger(impl.issued, impl.retired, Damaged(impl.mem, impl.live, impl.config.guards), impl.errors)
    }

    ghost function Seen(): Holding
      reads impl
    {
      Holding(Heap(), Books())
    }

    /** An allocator on a system that may serve others as well, over any memory. */
    constructor (config: Config, os: Os, mem: Memory)
      requires os.Valid()
      ensures Valid() && Heap() == map[] && impl.config == config && central.os == os
      ensures Books() == Ledger({}, map[], {}, []) && forall t :: central.NoCaches(t)
      ensures fresh(impl) && fresh(impl.debug) && fresh(central) && fresh(central.segments)
      ensures fresh(central.segments.bins) && fresh(central.large) && fresh(central.Objects())
    {
      var state := new CentralState(os);
      ghost var none: Blocks := map[];
      FreshStart(state.View(), mem, none);
      impl := new AllocatorImpl(config, mem, state.View(), none);
      NothingReflected(mem, state.View(), state.segments.mem);
      central := state;
    }

    /** The facade's own objects are none of the tiers'. */
    lemma Foreign(caches: seq<ClassCache>)
      ensures (impl as object) !in central.Objects() && (impl.debug as object) !in central.Objects()
      ensures (impl as object) !in CacheObjects(caches) && (impl.debug as object) !in CacheObjects(caches)
    {}

    /** The tier's part of an allocation. */
    method AskTier(asked: nat, caches: seq<ClassCache>, ghost t: Tid) returns (answer: Answer, ghost g: Grant)
      requires Valid() && central.Caches(caches, t)
      modifies central, central.os, central.segments, central.segments.bins, central.large,
               central.Objects(), CacheObjects(caches)
      ensures impl.Valid() && central.Valid() && central.Caches(caches, t)
      ensures Answered(impl.tiers, central.View(), asked, answer, g) == true
      ensures Intact(if answer.Served? then answer.writes(impl.mem) else impl.mem)
      ensures answer.Refused? ==> central.os.refusals > old(central.os.refusals)
      ensures OthersKeep(old(central.small), central.small, Users(caches, t)) == true
      ensures answer.Served? ==> Drew(old(central.small), central.small, Way(caches, t), asked, answer.block) == true
      ensures answer.Refused? ==> central.small == old(central.small)
    {
      ghost var mem, tiers := central.segments.mem, central.View();
      Foreign(caches);
      answer, g := central.ServeRaw(asked, caches, t);
      if answer.Served? {
        UseRenews(answer.writes, tiers, mem, central.View(), central.segments.mem, impl.mem);
      }
    }

    /** The tier's part of a free; m is the memory as the facade will free p in it. */
    method GiveBack(p: int, caches: seq<ClassCache>, ghost t: Tid, ghost m: Memory) returns (taken: Taken, ghost via: Via)
      requires Valid() && central.Caches(caches, t) && p in impl.live
      requires Intact(m) && BlockOK(m, p, impl.live[p]) == true
      modifies central, central.os, central.segments, central.segments.bins, central.large,
               central.Objects(), CacheObjects(caches)
      ensures impl.Valid() && central.Valid() && central.Caches(caches, t)
      ensures TookBack(impl.tiers, central.View(), impl.live[p].raw, taken, via) == true
      ensures Intact(taken.writes(Wiped(m, p, impl.live[p], impl.config.poisoning)))
      ensures impl.live[p].raw.owner.Medium? ==>
                MediumFreed(taken, old(central.segments.View()), central.segments.View(),
                            impl.live[p].raw.lo, old(central.segments.mem), central.segments.mem) == true
      ensures OthersKeep(old(central.small), central.small, Users(caches, t)) == true
      ensures GaveBack(old(central.small), central.small, Way(caches, t), impl.live[p].raw.owner, impl.live[p].raw.lo) == true
      ensures impl.live[p].raw.owner.Medium? ==>
                && impl.live[p].raw.lo - BLOCK_HEADER_SIZE in old(central.segments.blocks)
                && SegmentGone(old(central.segments.View()), central.segments.View(), impl.live[p].raw.lo - BLOCK_HEADER_SIZE,
                               old(central.os.mapped), central.os.mapped) == true
    {
      LiveRaw(impl.Now(), impl.config.tracking, p);
      WipedWithin(m, p, impl.live[p], impl.config.poisoning);
      Foreign(caches);
      var block, owner := impl.Locate(p);
      taken, via := GiveRaw(owner, block, caches, t, impl.live[p].raw, m, Wiped(m, p, impl.live[p], impl.config.poisoning));
    }

    /** Writes inside a block that is handed out keep memory intact. */
    lemma StillIntact(m: Memory, m': Memory, raw: Raw)
      requires central.Valid() && IsRaw(central.View(), raw) && Intact(m) && Only(m, m', raw.lo, raw.hi) == true
      ensures Intact(m')
    {
      ReflectedThrough(central.View(), central.os.mapped, m, m', raw, central.segments.mem);
    }

    method GiveRaw(owner: Owner, block: int, caches: seq<ClassCache>, ghost t: Tid, ghost raw: Raw, ghost m: Memory, ghost m': Memory)
      returns (taken: Taken, ghost via: Via)
      requires Valid() && central.Caches(caches, t) && IsRaw(impl.tiers, raw) && raw.lo == block && raw.owner == owner
      requires Intact(m) && Only(m, m', raw.lo, raw.hi) == true
      modifies central, central.os, central.segments, central.segments.bins, central.large,
               central.Objects(), CacheObjects(caches)
      ensures impl.Valid() && central.Valid() && central.Caches(caches, t)
      ensures TookBack(impl.tiers, central.View(), raw, taken, via) == true && Intact(taken.writes(m'))
      ensures raw.owner.Medium? ==>
                MediumFreed(taken, old(central.segments.View()), central.segments.View(),
                            raw.lo, old(central.segments.mem), central.segments.mem) == true
      ensures OthersKeep(old(central.small), central.small, Users(caches, t)) == true
      ensures GaveBack(old(central.small), central.small, Way(caches, t), owner, block) == true
      ensures raw.owner.Medium? ==>
                && raw.lo - BLOCK_HEADER_SIZE in old(central.segments.blocks)
                && SegmentGone(old(central.segments.View()), central.segments.View(), raw.lo - BLOCK_HEADER_SIZE,
                               old(central.os.mapped), central.os.mapped) == true
    {
      ghost var mem, tiers := central.segments.mem, central.View();
      StillIntact(m, m', raw);
      Foreign(caches);
      taken, via := central.TakeRaw(owner, block, caches, t, raw);
      UseRenews(taken.writes, tiers, mem, central.View(), central.segments.mem, m');
    }

    /** allocate: a new pointer, away from every other; or an error, and then the system has
        refused a mapping unless the size is too large. */
    method Allocate(size: nat, caches: seq<ClassCache>, ghost t: Tid) returns (r: Outcome)
      requires Valid() && central.Caches(caches, t)
      modifies impl, impl.debug, central, central.os, central.segments, central.segments.bins, central.large,
               central.Objects(), CacheObjects(caches)
      ensures Valid() && central.Caches(caches, t)
      ensures if r.Ok? then Acquired(old(Seen()), Seen(), r.ptr, Normal(size))
              else Missed(old(Seen()), Seen(), r.error, size, central.os.refusals > old(central.os.refusals))
      ensures OthersKeep(old(central.small), central.small, Users(caches, t)) == true
      ensures r == Err(SizeOverflow) <==> size > 0x4000_0000_0000
      ensures r.Ok? ==> |Heap()[r.ptr]| == if size == 0 then 1 else size
      ensures r.Ok? && impl.config.poisoning ==> forall i :: 0 <= i < |Heap()[r.ptr]| ==> Heap()[r.ptr][i] == 0xCD
      ensures r.Ok? ==>
                && r.ptr in impl.live && impl.live == old(impl.live)[r.ptr := impl.live[r.ptr]]
                && impl.live[r.ptr].kind.Guarded? == impl.config.guards
      ensures r.Ok? ==>
                Drew(old(central.small), central.small, Way(caches, t),
                     (if size == 0 then 1 else size) + (if impl.config.guards then 64 else 0),
                     r.ptr - (if impl.config.guards then 48 else 16)) == true
      ensures r.Err? ==> impl.live == old(impl.live) && central.small == old(central.small)
    {
      ghost var raw;
      r, raw := AskAndIssue(size, caches, t);
    }

    /** Both parts of an allocation. */
    method AskAndIssue(size: nat, caches: seq<ClassCache>, ghost t: Tid) returns (r: Outcome, ghost raw: Raw)
      requires Valid() && central.Caches(caches, t)
      modifies impl, impl.debug, central, central.os, central.segments, central.segments.bins, central.large,
               central.Objects(), CacheObjects(caches)
      ensures Valid() && central.Caches(caches, t)
      ensures (if r.Ok? then Acquired(old(Seen()), Seen(), r.ptr, Normal(size))
               else Missed(old(Seen()), Seen(), r.error, size, central.os.refusals > old(central.os.refusals))) == true
      ensures r.Ok? ==>
                && Issued(old(impl.Now()), impl.Now(), r.ptr, DressedBlock(Normal(size), raw, impl.config.guards)) == true
                && !IsDamaged(impl.mem, r.ptr, DressedBlock(Normal(size), raw, impl.config.guards), impl.config.guards)
      ensures OthersKeep(old(central.small), central.small, Users(caches, t)) == true
      ensures r.Ok? ==> raw.lo == r.ptr - (if impl.config.guards then 48 else 16)
      ensures r.Ok? ==> Drew(old(central.small), central.small, Way(caches, t), impl.Asked(size), raw.lo) == true
      ensures r.Ok? && impl.config.poisoning ==> Filled(impl.mem, r.ptr, Normal(size), ALLOC_POISON) == true
      ensures r.Err? ==>
                && impl.live == old(impl.live) && central.small == old(central.small)
                && (r.error == SizeOverflow <==> Normal(size) > MAX_REQUEST)
      ensures r.Ok? ==> Normal(size) <= MAX_REQUEST
    {
      var answer: Answer := Refused;
      ghost var g: Grant := PoolGrant(0);
      Foreign(caches);
      if Normal(size) <= MAX_REQUEST {
        answer, g := AskTier(impl.Asked(size), caches, t);
      }
      r, raw := Issue(size, answer, g);
    }

    /** The facade's part of an allocation. */
    method Issue(size: nat, answer: Answer, ghost g: Grant) returns (r: Outcome, ghost raw: Raw)
      requires impl.Valid() && central.Valid()
      requires if Normal(size) <= MAX_REQUEST then Answered(impl.tiers, central.View(), impl.Asked(size), answer, g) == true
               else central.View() == impl.tiers
      requires Intact(if Normal(size) <= MAX_REQUEST && answer.Served? then answer.writes(impl.mem) else impl.mem)
      modifies impl, impl.debug
      ensures Valid() && (r.Ok? <==> Normal(size) <= MAX_REQUEST && answer.Served?)
      ensures (if r.Ok? then Acquired(old(Seen()), Seen(), r.ptr, Normal(size))
               else Missed(old(Seen()), Seen(), r.error, size, true)) == true
      ensures r.Ok? ==> raw.lo == answer.block && r.ptr == raw.lo + (if impl.config.guards then 48 else 16)
      ensures r.Ok? && impl.config.poisoning ==> Filled(impl.mem, r.ptr, Normal(size), ALLOC_POISON) == true
      ensures r.Err? ==> impl.live == old(impl.live) && (r.error == SizeOverflow <==> Normal(size) > MAX_REQUEST)
      ensures r.Ok? ==>
                && Issued(old(impl.Now()), impl.Now(), r.ptr, DressedBlock(Normal(size), raw, impl.config.guards)) == true
                && !IsDamaged(impl.mem, r.ptr, DressedBlock(Normal(size), raw, impl.config.guards), impl.config.guards)
    {
      Foreign([]);
      ghost var v, tracking := impl.Now(), impl.config.tracking;
      r, raw := impl.Allocate(size, answer, g);
      if r.Ok? {
        HoldingIssued(v, impl.Now(), tracking, impl.config.guards, impl.errors, r.ptr,
                      DressedBlock(Normal(size), raw, impl.config.guards));
        HandedOnce(v.tiers, impl.tiers, central.View(), impl.Asked(size), g, raw);
        LiveRaw(impl.Now(), tracking, r.ptr);
        StillIntact(answer.writes(v.mem), impl.mem, raw);
      }
    }

    /** alignedAllocate: the same, at a multiple of the alignment. */
    method AlignedAllocate(alignment: nat, size: nat, caches: seq<ClassCache>, ghost t: Tid) returns (r: Outcome)
      requires Valid() && central.Caches(caches, t)
      modifies impl, impl.debug, central, central.os, central.segments, central.segments.bins, central.large,
               central.Objects(), CacheObjects(caches)
      ensures Valid() && central.Caches(caches, t)
      ensures if r.Ok? then Acquired(old(Seen()), Seen(), r.ptr, Normal(size)) && AlignedTo(r.ptr, alignment)
              else if !GoodAlignment(alignment)
              then r == Err(InvalidAlignment) && Failed(old(Seen()), Seen(), InvalidAlignment, 0)
              else Missed(old(Seen()), Seen(), r.error, size, central.os.refusals > old(central.os.refusals))
      ensures r.Ok? ==> GoodAlignment(alignment)
      ensures OthersKeep(old(central.small), central.small, Users(caches, t)) == true
      ensures r == Err(InvalidAlignment) <==> !(exists k: nat :: k <= 30 && alignment == Pow2(k))
      ensures r.Ok? ==> |Heap()[r.ptr]| == if size == 0 then 1 else size
      ensures r.Ok? ==>
                && r.ptr in impl.live
                && Drew(old(central.small), central.small, Way(caches, t),
                        (if size == 0 then 1 else size) +
                        (if alignment > 16 then alignment else if impl.config.guards then 64 else 0),
                        impl.live[r.ptr].raw.lo) == true
      ensures r.Err? ==> central.small == old(central.small)
    {
      GoodAlignmentExact(alignment);
      r := AlignAndIssue(alignment, size, caches, t);
    }

    /** Both parts of an aligned allocation. */
    method AlignAndIssue(alignment: nat, size: nat, caches: seq<ClassCache>, ghost t: Tid) returns (r: Outcome)
      requires Valid() && central.Caches(caches, t)
      modifies impl, impl.debug, central, central.os, central.segments, central.segments.bins, central.large,
               central.Objects(), CacheObjects(caches)
      ensures Valid() && central.Caches(caches, t)
      ensures (if r.Ok? then Acquired(old(Seen()), Seen(), r.ptr, Normal(size)) && AlignedTo(r.ptr, alignment)
               else if !GoodAlignment(alignment)
               then r == Err(InvalidAlignment) && Failed(old(Seen()), Seen(), InvalidAlignment, 0)
               else Missed(old(Seen()), Seen(), r.error, size, central.os.refusals > old(central.os.refusals))) == true
      ensures r.Ok? ==> GoodAlignment(alignment)
      ensures OthersKeep(old(central.small), central.small, Users(caches, t)) == true
      ensures r.Ok? ==>
                && r.ptr in impl.live
                && Drew(old(central.small), central.small, Way(caches, t), impl.AskedAligned(alignment, size),
                        impl.live[r.ptr].raw.lo) == true
      ensures r.Err? ==> central.small == old(central.small)
    {
      var answer: Answer := Refused;
      ghost var g: Grant := PoolGrant(0);
      Foreign(caches);
      if GoodAlignment(alignment) && Normal(size) <= MAX_REQUEST {
        answer, g := AskTier(impl.AskedAligned(alignment, size), caches, t);
      }
      r := IssueAligned(alignment, size, answer, g);
    }

    method IssueAligned(alignment: nat, size: nat, answer: Answer, ghost g: Grant) returns (r: Outcome)
      requires impl.Valid() && central.Valid()
      requires if GoodAlignment(alignment) && Normal(size) <= MAX_REQUEST
               then Answered(impl.tiers, central.View(), impl.AskedAligned(alignment, size), answer, g) == true
               else central.View() == impl.tiers
      requires Intact(if GoodAlignment(alignment) && Normal(size) <= MAX_REQUEST && answer.Served?
                      then answer.writes(impl.mem) else impl.mem)
      modifies impl, impl.debug
      ensures Valid() && (r.Ok? <==> GoodAlignment(alignment) && Normal(size) <= MAX_REQUEST && answer.Served?)
      ensures r.Ok? ==> r.ptr in impl.live && impl.live[r.ptr].raw.lo == answer.block
      ensures (if r.Ok? then Acquired(old(Seen()), Seen(), r.ptr, Normal(size)) && AlignedTo(r.ptr, alignment)
               else if !GoodAlignment(alignment)
               then r == Err(InvalidAlignment) && Failed(old(Seen()), Seen(), InvalidAlignment, 0)
               else Missed(old(Seen()), Seen(), r.error, size, true)) == true
    {
      Foreign([]);
      ghost var v, tracking := impl.Now(), impl.config.tracking;
      ghost var raw;
      r, raw := impl.AlignedAllocate(alignment, size, answer, g);
      if r.Ok? {
        HoldingIssued(v, impl.Now(), tracking, impl.config.guards, impl.errors, r.ptr, impl.AlignedAs(alignment, size, raw));
        HandedOnce(v.tiers, impl.tiers, central.View(), impl.AskedAligned(alignment, size), g, raw);
        LiveRaw(impl.Now(), tracking, r.ptr);
        StillIntact(answer.writes(v.mem), impl.mem, raw);
      }
    }

    /** deallocate: accepted if and only if null or held, and then the block is gone and the
        others are as before. */
    method Deallocate(p: int, caches: seq<ClassCache>, ghost t: Tid) returns (r: Outcome)
      requires Valid() && central.Caches(caches, t) && impl.Readable(p)
      modifies impl, impl.debug, central, central.os, central.segments, central.segments.bins, central.large,
               central.Objects(), CacheObjects(caches)
      ensures Valid() && central.Caches(caches, t)
      ensures Released(p, r, old(Seen()), Seen(), old(impl.live), impl.tiers)
      ensures p in old(Heap()) ==>
                Books().reports == old(Books()).reports + if p in old(Books()).damaged then [Report(HeapCorruption, p)] else []
      ensures impl.config.tracking && p != 0 && p !in old(Heap()) ==>
                r == Err(if p in old(Books()).ever then DoubleFree else InvalidPointer)
      ensures !impl.config.tracking && p != 0 && p !in old(Heap()) ==>
                r == Err(if 0x51 <= old(TierAt(impl.mem, p - 16)) <= 0x55 && old(StateAt(impl.mem, p - 16)) == 0xF4EE
                         then DoubleFree else InvalidPointer)
      ensures impl.live == old(impl.live) - {p} && OnlyFreed(old(impl.tiers), impl.tiers) == true
      ensures if p in old(impl.live) then GaveBack(old(central.small), central.small, Way(caches, t),
                                                   old(impl.live)[p].raw.owner, old(impl.live)[p].raw.lo) == true
              else central.small == old(central.small)
      ensures OthersKeep(old(central.small), central.small, Users(caches, t)) == true
    {
      var taken, via := GiveBackIfHeld(p, caches, t);
      r := Retire(p, taken, via);
    }

    /** The tier's part of a free, if the pointer is accepted. */
    method GiveBackIfHeld(p: int, caches: seq<ClassCache>, ghost t: Tid) returns (taken: Taken, ghost via: Via)
      requires Valid() && central.Caches(caches, t) && impl.Readable(p)
      modifies central, central.os, central.segments, central.segments.bins, central.large,
               central.Objects(), CacheObjects(caches)
      ensures impl.Valid() && central.Valid() && central.Caches(caches, t)
      ensures if p in impl.live then TookBack(impl.tiers, central.View(), impl.live[p].raw, taken, via) == true
              else central.View() == impl.tiers
      ensures Intact(if p in impl.live then taken.writes(Wiped(impl.mem, p, impl.live[p], impl.config.poisoning)) else impl.mem)
      ensures OthersKeep(old(central.small), central.small, Users(caches, t)) == true
      ensures if p in impl.live then GaveBack(old(central.small), central.small, Way(caches, t),
                                              impl.live[p].raw.owner, impl.live[p].raw.lo) == true
              else central.small == old(central.small)
    {
      taken, via := Taken(0, m => m), ViaPool;
      Foreign(caches);
      var held := impl.Accepts(p);
      if held {
        LiveHeader(impl.Now(), impl.config.tracking, p);
        taken, via := GiveBack(p, caches, t, impl.mem);
      }
    }

    /** The facade's part of a free. */
    method Retire(p: int, taken: Taken, ghost via: Via) returns (r: Outcome)
      requires impl.Valid() && central.Valid() && impl.Readable(p)
      requires if p in impl.live then TookBack(impl.tiers, central.View(), impl.live[p].raw, taken, via) == true
               else central.View() == impl.tiers
      requires Intact(if p in impl.live then taken.writes(Wiped(impl.mem, p, impl.live[p], impl.config.poisoning)) else impl.mem)
      modifies impl, impl.debug
      ensures Valid() && Released(p, r, old(Seen()), Seen(), old(impl.live), impl.tiers) == true
      ensures impl.config.tracking && p != 0 && p !in old(impl.live) ==>
                r == Err(if p in old(impl.issued) then DoubleFree else InvalidPointer)
      ensures !impl.config.tracking && p != 0 && p !in old(impl.live) ==>
                r == Err(if 0x51 <= old(TierAt(impl.mem, p - 16)) <= 0x55 && old(StateAt(impl.mem, p - 16)) == 0xF4EE
                         then DoubleFree else InvalidPointer)
      ensures impl.live == old(impl.live) - {p} && OnlyFreed(old(impl.tiers), impl.tiers) == true
      ensures p in old(impl.live) ==>
                impl.mem == taken.writes(Wiped(old(impl.mem), p, old(impl.live[p]), impl.config.poisoning))
    {
      Foreign([]);
      ghost var v, tracking, reports := impl.Now(), impl.config.tracking, impl.errors;
      ghost var held := p in impl.live;
      impl.Judge(p);
      NotNull(v, tracking);
      r := impl.Deallocate(p, taken, via);
      if held {
        HoldingTaken(v, impl.Now(), tracking, impl.config.guards, reports, impl.errors, p);
        FreedOnly(v, tracking, impl.tiers, v.live[p].raw, via);
        HandedBackOnce(v.tiers, impl.tiers, central.View(), v.live[p].raw, via);
      }
    }

    /** Freeing blocks one after the other: afterwards those of them are retired, so that a
        further free is a double free, whose headers the tiers leave alone and whose memory
        is still mapped; small blocks are all among them. */
    method FreeAll(ps: seq<int>, caches: seq<ClassCache>, ghost t: Tid)
      requires Valid() && central.Caches(caches, t) && NoDup(ps) && forall p :: p in ps ==> p in Heap()
      modifies impl, impl.debug, central, central.os, central.segments, central.segments.bins, central.large,
               central.Objects(), CacheObjects(caches)
      ensures Valid() && central.Caches(caches, t)
      ensures Heap() == old(Heap()) - Members(ps)
      ensures Marked(impl.tiers, impl.retired, old(impl.live), Members(ps)) == true
      ensures forall p :: p in ps && old(impl.live)[p].raw.owner.Small? ==> p in impl.retired
      ensures OthersKeep(old(central.small), central.small, Users(caches, t)) == true
    {
      ghost var v := impl.Now();
      Foreign(caches);
      FreeEach(ps, caches, t);
      SmallAllStay(v, impl.config.tracking, impl.tiers, impl.retired, Members(ps));
    }

    method FreeEach(ps: seq<int>, caches: seq<ClassCache>, ghost t: Tid)
      requires Valid() && central.Caches(caches, t) && NoDup(ps) && forall p :: p in ps ==> p in Heap()
      modifies impl, impl.debug, central, central.os, central.segments, central.segments.bins, central.large,
               central.Objects(), CacheObjects(caches)
      ensures Valid() && central.Caches(caches, t)
      ensures Heap() == old(Heap()) - Members(ps)
      ensures Marked(impl.tiers, impl.retired, old(impl.live), Members(ps)) == true
      ensures OnlyFreed(old(impl.tiers), impl.tiers) == true
      ensures OthersKeep(old(central.small), central.small, Users(caches, t)) == true
    {
      ghost var held, small, tiers := impl.live, central.small, impl.tiers;
      var i := 0;
      while i < |ps|
        invariant 0 <= i <= |ps| && Valid() && central.Caches(caches, t) && Heap() == old(Heap()) - Members(ps[..i])
        invariant impl.live == held - Members(ps[..i]) && Marked(impl.tiers, impl.retired, held, Members(ps[..i])) == true
        invariant OnlyFreed(tiers, impl.tiers) == true
        invariant OthersKeep(small, central.small, Users(caches, t)) == true
      {
        NextFreed(ps, i);
        FreeNext(ps[i], caches, t, held, Members(ps[..i]), small, tiers);
        i := i + 1;
      }
      assert ps[..|ps|] == ps;
    }

    method FreeNext(p: int, caches: seq<ClassCache>, ghost t: Tid, ghost held: Blocks, ghost freed: set<int>,
                    ghost small: seq<System>, ghost tiers: TierState)
      requires Valid() && central.Caches(caches, t) && p in held && p !in freed
      requires impl.live == held - freed && Marked(impl.tiers, impl.retired, held, freed) == true
      requires OnlyFreed(tiers, impl.tiers) == true && OthersKeep(small, central.small, Users(caches, t)) == true
      modifies impl, impl.debug, central, central.os, central.segments, central.segments.bins, central.large,
               central.Objects(), CacheObjects(caches)
      ensures Valid() && central.Caches(caches, t) && Heap() == old(Heap()) - {p}
      ensures impl.live == held - (freed + {p}) && Marked(impl.tiers, impl.retired, held, freed + {p}) == true
      ensures OnlyFreed(tiers, impl.tiers) == true && OthersKeep(small, central.small, Users(caches, t)) == true
    {
      ghost var before, between, retired := impl.tiers, central.small, impl.retired;
      var r := Deallocate(p, caches, t);
      MarkedNext(before, impl.tiers, retired, held, freed, p);
      OthersKeepTwice(small, between, central.small, Users(caches, t));
      OnlyFreedTwice(tiers, before, impl.tiers);
    }

    /** Freeing an aligned medium block twice, when its shim lies where the free node goes.
        Without tracking the second free is taken for an invalid pointer if the block is
        still a block, and for a double free if it was swallowed by its left neighbour. If
        the segment was given back, the header below p is not mapped any more, so that the
        second free has nothing to read. */
    method FreeShimTwice(p: int, caches: seq<ClassCache>, ghost t: Tid)
      returns (first: Outcome, readable: bool, second: Outcome, ghost l: SegmentLayout.Layout)
      requires Valid() && central.Caches(caches, t) && !impl.config.tracking && ShimInPlace(p)
      modifies impl, impl.debug, central, central.os, central.segments, central.segments.bins, central.large,
               central.Objects(), CacheObjects(caches)
      ensures Valid() && central.Caches(caches, t) && first == Ok(0) && p !in Heap()
      ensures FreedFrom(old(central.segments.View()), l, p - 48)
      ensures readable <==> l.segs == old(central.segments.segments)
      ensures !readable ==> forall b :: b in central.os.mapped ==> Disjoint(b, central.os.mapped[b], p - 16, 16)
      ensures readable ==> second == Err(if p - 48 in l.blocks then InvalidPointer else DoubleFree)
    {
      var segments := central.segments.segments;
      first, l := FreeShim(p, caches, t);
      assert Opened(p, 0);
      readable, second := central.segments.segments == segments, Ok(0);
      if readable {
        second := Deallocate(p, caches, t);
      }
    }

    /** p is an aligned medium block whose shim follows the universal header at once. */
    ghost predicate ShimInPlace(p: int)
      reads impl
    {
      && p in impl.live && impl.live[p].raw.owner.Medium?
      && impl.live[p].kind.Aligned? && p == RawUser(impl.live[p]) + 16
    }

    method FreeShim(p: int, caches: seq<ClassCache>, ghost t: Tid) returns (r: Outcome, ghost l: SegmentLayout.Layout)
      requires Valid() && central.Caches(caches, t) && ShimInPlace(p)
      modifies impl, impl.debug, central, central.os, central.segments, central.segments.bins, central.large,
               central.Objects(), CacheObjects(caches)
      ensures Valid() && central.Caches(caches, t) && r == Ok(0) && p != 0 && p !in impl.live
      ensures ShimLeft(old(central.segments.View()), l, impl.mem, p, central.os.mapped) == true
      ensures l == central.segments.View()
    {
      NotNull(impl.Now(), impl.config.tracking);
      Foreign(caches);
      var taken, via := GiveBackShimmed(p, caches, t);
      l := central.segments.View();
      r := RetireHeld(p, taken, via);
    }

    /** The tier's part. */
    method GiveBackShimmed(p: int, caches: seq<ClassCache>, ghost t: Tid) returns (taken: Taken, ghost via: Via)
      requires Valid() && central.Caches(caches, t) && ShimInPlace(p)
      modifies central, central.os, central.segments, central.segments.bins, central.large,
               central.Objects(), CacheObjects(caches)
      ensures impl.Valid() && central.Valid() && central.Caches(caches, t)
      ensures TookBack(impl.tiers, central.View(), impl.live[p].raw, taken, via) == true
      ensures Intact(taken.writes(Wiped(impl.mem, p, impl.live[p], impl.config.poisoning)))
      ensures ShimLeft(old(central.segments.View()), central.segments.View(),
                       taken.writes(Wiped(impl.mem, p, impl.live[p], impl.config.poisoning)), p, central.os.mapped) == true
    {
      ghost var v, mem, mapped := impl.Now(), central.segments.mem, central.os.mapped;
      assert v.tiers.heap == central.segments.View();
      Foreign(caches);
      LiveHeader(v, impl.config.tracking, p);
      taken, via := GiveBack(p, caches, t, impl.mem);
      AfterShimFreed(v, impl.config.tracking, p, taken, central.segments.View(), mem, central.segments.mem,
                     impl.config.poisoning, mapped, central.os.mapped);
    }

    /** The facade's part, for a pointer that is held. */
    method RetireHeld(p: int, taken: Taken, ghost via: Via) returns (r: Outcome)
      requires impl.Valid() && central.Valid() && p in impl.live
      requires TookBack(impl.tiers, central.View(), impl.live[p].raw, taken, via) == true
      requires Intact(taken.writes(Wiped(impl.mem, p, impl.live[p], impl.config.poisoning)))
      modifies impl, impl.debug
      ensures Valid() && r == Ok(0) && p !in impl.live
      ensures impl.mem == taken.writes(Wiped(old(impl.mem), p, old(impl.live[p]), impl.config.poisoning))
    {
      Foreign([]);
      NotNull(impl.Now(), impl.config.tracking);
      r := Retire(p, taken, via);
    }

    /** reallocate: fails without any change; or null allocates, size zero frees, and
        anything else moves the block with the bytes that fit. Between says how the small
        tier was once the new block had been allocated. */
    method Reallocate(p: int, size: nat, caches: seq<ClassCache>, ghost t: Tid) returns (r: Outcome, ghost between: seq<System>)
      requires Valid() && central.Caches(caches, t) && impl.Readable(p)
      modifies impl, impl.debug, central, central.os, central.segments, central.segments.bins, central.large,
               central.Objects(), CacheObjects(caches)
      ensures Valid() && central.Caches(caches, t)
      ensures Reallocated(p, size, r, old(Seen()), Seen(), old(impl.live), impl.tiers,
                          central.os.refusals > old(central.os.refusals)) == true
      ensures OthersKeep(old(central.small), central.small, Users(caches, t)) == true
      ensures p != 0 && size > 0 && p in old(impl.live) && r.Ok? ==>
                && Drew(old(central.small), between, Way(caches, t), size + (if impl.config.guards then 64 else 0),
                        r.ptr - (if impl.config.guards then 48 else 16)) == true
                && GaveBack(between, central.small, Way(caches, t), old(impl.live)[p].raw.owner, old(impl.live)[p].raw.lo) == true
    {
      between := central.small;
      ghost var x, live, refusals := Seen(), impl.live, central.os.refusals;
      if p == 0 {
        r := Allocate(size, caches, t);
        ReallocatedNew(p, size, r, x, Seen(), live, impl.tiers, central.os.refusals > refusals);
      } else if size == 0 {
        r := Deallocate(p, caches, t);
        ReallocatedFree(p, size, r, x, Seen(), live, impl.tiers, central.os.refusals > refusals);
      } else {
        var held := IsHeld(p, caches, t);
        r, between := RelocateIfHeld(held, p, size, caches, t);
      }
    }

    method IsHeld(p: int, ghost caches: seq<ClassCache>, ghost t: Tid) returns (held: bool)
      requires Valid() && central.Caches(caches, t) && impl.Readable(p)
      ensures Valid() && central.Caches(caches, t) && Seen() == old(Seen())
      ensures held <==> p in impl.live
    {
      held := impl.Accepts(p);
    }

    method RelocateIfHeld(held: bool, p: int, size: nat, caches: seq<ClassCache>, ghost t: Tid) returns (r: Outcome, ghost between: seq<System>)
      requires Valid() && central.Caches(caches, t) && impl.Readable(p) && p != 0 && size > 0 && (held <==> p in impl.live)
      modifies impl, impl.debug, central, central.os, central.segments, central.segments.bins, central.large,
               central.Objects(), CacheObjects(caches)
      ensures Valid() && central.Caches(caches, t)
      ensures Reallocated(p, size, r, old(Seen()), Seen(), old(impl.live), impl.tiers,
                          central.os.refusals > old(central.os.refusals)) == true
      ensures OthersKeep(old(central.small), central.small, Users(caches, t)) == true
      ensures p in old(impl.live) && r.Ok? ==>
                && Drew(old(central.small), between, Way(caches, t), size + (if impl.config.guards then 64 else 0),
                        r.ptr - (if impl.config.guards then 48 else 16)) == true
                && GaveBack(between, central.small, Way(caches, t), old(impl.live)[p].raw.owner, old(impl.live)[p].raw.lo) == true
    {
      between := central.small;
      if held {
        r, between := Relocate(p, size, caches, t);
      } else {
        r := Refuse(p, size, false);
      }
    }

    /** reallocate of a pointer that is not held. */
    method Refuse(p: int, size: nat, ghost refused: bool) returns (r: Outcome)
      requires Valid() && impl.Readable(p) && p != 0 && p !in impl.live && size > 0
      modifies impl, impl.debug
      ensures Valid() && r == Err(InvalidPointer) && Failed(old(Seen()), Seen(), InvalidPointer, p) == true
      ensures Reallocated(p, size, r, old(Seen()), Seen(), old(impl.live), impl.tiers, refused) == true
      ensures impl.live == old(impl.live)
    {
      Foreign([]);
      ghost var raw;
      r, raw := impl.Reallocate(p, size, Refused, PoolGrant(0), Taken(0, m => m), ViaPool);
    }

    /** reallocate of a block that is held: allocate, copy what fits, free. */
    method Relocate(p: int, size: nat, caches: seq<ClassCache>, ghost t: Tid) returns (r: Outcome, ghost between: seq<System>)
      requires Valid() && central.Caches(caches, t) && p in impl.live && p != 0 && size > 0
      modifies impl, impl.debug, central, central.os, central.segments, central.segments.bins, central.large,
               central.Objects(), CacheObjects(caches)
      ensures Valid() && central.Caches(caches, t)
      ensures Reallocated(p, size, r, old(Seen()), Seen(), old(impl.live), impl.tiers,
                          central.os.refusals > old(central.os.refusals)) == true
      ensures OthersKeep(old(central.small), central.small, Users(caches, t)) == true
      ensures r.Ok? ==>
                && Drew(old(central.small), between, Way(caches, t), size + (if impl.config.guards then 64 else 0),
                        r.ptr - (if impl.config.guards then 48 else 16)) == true
                && GaveBack(between, central.small, Way(caches, t), old(impl.live)[p].raw.owner, old(impl.live)[p].raw.lo) == true
    {
      ghost var small, x, k, live, refusals := central.small, Seen(), impl.live[p], impl.live, central.os.refusals;
      var before;
      r, before := MakeRoom(p, size, caches, t);
      between := central.small;
      if r.Ok? {
        ghost var x1 := Seen();
        ghost var x2 := CopyAndFree(r.ptr, p, Min(before, size), caches, t);
        RelocatedInParts(x, x1, x2, Seen(), p, k, impl.tiers, r.ptr, size);
        OthersKeepTwice(small, between, central.small, Users(caches, t));
      }
      ReallocatedMove(p, size, r, x, Seen(), live, impl.tiers, central.os.refusals > refusals);
    }

    /** The allocation of a move. */
    method MakeRoom(p: int, size: nat, caches: seq<ClassCache>, ghost t: Tid) returns (r: Outcome, before: nat)
      requires Valid() && central.Caches(caches, t) && p in impl.live && size > 0
      modifies impl, impl.debug, central, central.os, central.segments, central.segments.bins, central.large,
               central.Objects(), CacheObjects(caches)
      ensures Valid() && central.Caches(caches, t)
      ensures p in old(Heap()) && before == |old(Heap())[p]| >= 1
      ensures (if r.Ok? then Acquired(old(Seen()), Seen(), r.ptr, size)
               else Missed(old(Seen()), Seen(), r.error, size, central.os.refusals > old(central.os.refusals))) == true
      ensures OthersKeep(old(central.small), central.small, Users(caches, t)) == true
      ensures r.Ok? ==>
                && r.ptr in Heap() && |Heap()[r.ptr]| == size && p in Heap() && |Heap()[p]| == before
                && p in impl.live && impl.live[p] == old(impl.live)[p]
      ensures r.Ok? ==>
                Drew(old(central.small), central.small, Way(caches, t), size + (if impl.config.guards then 64 else 0),
                     r.ptr - (if impl.config.guards then 48 else 16)) == true
    {
      LiveHeader(impl.Now(), impl.config.tracking, p);
      before := impl.AllocationSize(p);
      r := Allocate(size, caches, t);
    }

    /** The rest of a move, where x is what is seen between the copy and the free. */
    method CopyAndFree(q: int, p: int, n: nat, caches: seq<ClassCache>, ghost t: Tid) returns (ghost x: Holding)
      requires Valid() && central.Caches(caches, t)
      requires q in Heap() && p in Heap() && 0 < n <= |Heap()[q]| && n <= |Heap()[p]|
      modifies impl, impl.debug, central, central.os, central.segments, central.segments.bins, central.large,
               central.Objects(), CacheObjects(caches)
      ensures Valid() && central.Caches(caches, t)
      ensures CopiedTo(old(Seen()), x, q, p, n) == true && Dropped(x, Seen(), p, old(impl.live)[p], impl.tiers) == true
      ensures OthersKeep(old(central.small), central.small, Users(caches, t)) == true
      ensures GaveBack(old(central.small), central.small, Way(caches, t), old(impl.live)[p].raw.owner,
                       old(impl.live)[p].raw.lo) == true
    {
      Foreign(caches);
      CopyOver(q, p, n);
      x := Seen();
      NotNull(impl.Now(), impl.config.tracking);
      var freed := Deallocate(p, caches, t);
    }

    /** The copy of a move. */
    method CopyOver(q: int, p: int, n: nat)
      requires Valid() && q in Heap() && p in Heap() && 0 < n <= |Heap()[q]| && n <= |Heap()[p]|
      modifies impl
      ensures Valid() && CopiedTo(old(Seen()), Seen(), q, p, n) == true && impl.live == old(impl.live)
    {
      Foreign([]);
      ghost var v, k := impl.Now(), impl.live[q];
      LiveHeader(v, impl.config.tracking, q);
      LiveRaw(v, impl.config.tracking, q);
      CopyWithin(impl.mem, q, k, p, n);
      StillIntact(impl.mem, Copy(impl.mem, q, p, n), k.raw);
      impl.CopyOver(q, p, n);
      HoldingCopied(v, impl.mem, impl.config.tracking, impl.config.guards, impl.errors, q, p, n);
    }

    // --------------------------------------------------------------------- other events

    /** allocationSize: the size of what is held, zero for anything else; but without
        tracking, bytes that look like the header of an issued block are taken for one. */
    method AllocationSize(p: int) returns (n: nat)
      requires Valid()
      ensures impl.Readable(p) ==> n == if p in Heap() then |Heap()[p]| else 0
      ensures !impl.Readable(p) ==> n == SizeAt(impl.mem, p - HEADER_SIZE)
    {
      impl.Judge(p);
      n := impl.AllocationSize(p);
    }

    /** A client writes a byte of its own. */
    method Write(p: int, i: nat, value: Byte)
      requires Valid() && p in Heap() && i < |Heap()[p]|
      modifies impl
      ensures Valid() && Heap() == old(Heap())[p := old(Heap())[p][i := value]] && Books() == old(Books())
    {
      Foreign([]);
      ghost var v := impl.Now();
      OwnByte(p, i, value);
      impl.Write(p, p + i, value);
      WrittenOnly(v, impl.Now(), impl.config.tracking, impl.config.guards, p, i, value);
    }

    lemma OwnByte(p: int, i: nat, value: Byte)
      requires Valid() && p in impl.live && i < impl.live[p].size
      ensures Spoils(impl.live[p], p, p + i) && Intact(Fill(impl.mem, p + i, 1, value))
    {
      LiveHeader(impl.Now(), impl.config.tracking, p);
      LiveRaw(impl.Now(), impl.config.tracking, p);
      WriteWithin(impl.mem, p, impl.live[p], i, value);
      StillIntact(impl.mem, Fill(impl.mem, p + i, 1, value), impl.live[p].raw);
    }

    /** A client writes on a guard byte of its block: no contents change, and the block
        counts as damaged if and only if some byte of its guards is not 0xFB. */
    method Overrun(p: int, x: int, value: Byte)
      requires Valid() && p in impl.live && impl.live[p].kind.Guarded?
      requires p - 32 <= x < p - 16 || p + impl.live[p].size <= x < p + impl.live[p].size + 32
      modifies impl
      ensures Valid() && Heap() == old(Heap()) && impl.live == old(impl.live) && impl.mem.bytes(x) == value
      ensures Books() == old(Books()).(damaged := Books().damaged) && Books().damaged - {p} == old(Books()).damaged - {p}
      ensures p in Books().damaged <==>
                impl.config.guards &&
                exists y :: (p - 32 <= y < p - 16 || p + |Heap()[p]| <= y < p + |Heap()[p]| + 32) && impl.mem.bytes(y) != 0xFB
    {
      Foreign([]);
      ghost var v := impl.Now();
      LiveHeader(v, impl.config.tracking, p);
      LiveRaw(v, impl.config.tracking, p);
      SpoilWithin(impl.mem, p, impl.live[p], x, value);
      StillIntact(impl.mem, Fill(impl.mem, x, 1, value), impl.live[p].raw);
      impl.Write(p, x, value);
      HeldSpoilt(v, impl.Now(), impl.config.tracking, p, x);
      DamagedExactly(impl.mem, impl.live, impl.config.guards, p);
      DamageOnly(v, impl.mem, impl.config.tracking, impl.config.guards, p);
    }

    /** Memory and the blocks, issued and once issued, are those of the view. */
    ghost predicate SameBlocks(v: View)
      reads impl
    {
      impl.mem == v.mem && impl.live == v.live && impl.issued == v.issued && impl.retired == v.retired
    }

    /** A thread starts: its caches are created class by class. */
    method ThreadStarts(ghost t: Tid) returns (caches: seq<ClassCache>)
      requires Valid() && central.NoCaches(t)
      modifies impl, central
      ensures Valid() && central.Caches(caches, t) && |caches| == CLASS_COUNT && fresh(CacheObjects(caches))
      ensures Seen() == old(Seen()) && SameBlocks(old(impl.Now()))
      ensures OthersKeep(old(central.small), central.small, {t}) == true
      ensures AllIdle(old(central.small), central.small) == true
    {
      caches := [];
      ghost var small := central.small;
      SameIsIdle(small);
      while |caches| < CLASS_COUNT
        invariant |caches| <= CLASS_COUNT && Valid() && Seen() == old(Seen()) && SameBlocks(old(impl.Now()))
        invariant Started(caches, t) && fresh(CacheObjects(caches))
        invariant OthersKeep(small, central.small, {t}) == true && AllIdle(small, central.small) == true
      {
        ghost var before := central.small;
        caches := StartNext(caches, t);
        IdleTwice(small, before, central.small);
        OthersKeepTwice(small, before, central.small, {t});
      }
    }

    /** The caches of thread t up to some class have been created. */
    ghost predicate Started(caches: seq<ClassCache>, t: Tid)
      reads central, CacheObjects(caches)
    {
      && |caches| <= CLASS_COUNT && AllApart(caches)
      && (forall c :: 0 <= c < |caches| ==> (CacheInside(caches, c); central.Holds(c, caches[c], t)))
      && (forall c :: |caches| <= c < |central.small| ==> t !in central.small[c].caches)
    }

    method StartNext(caches: seq<ClassCache>, ghost t: Tid) returns (more: seq<ClassCache>)
      requires Valid() && |caches| < CLASS_COUNT && Started(caches, t)
      modifies impl, central
      ensures Valid() && Seen() == old(Seen()) && SameBlocks(old(impl.Now()))
      ensures |more| == |caches| + 1 && Started(more, t) && fresh(CacheObjects(more) - CacheObjects(caches))
      ensures OthersKeep(old(central.small), central.small, {t}) == true
      ensures AllIdle(old(central.small), central.small) == true
    {
      var cache := StartClass(|caches|, t);
      more := caches + [cache];
      forall c | 0 <= c < |caches|
        ensures central.Holds(c, caches[c], t) == true
      {
        CacheInside(caches, c);
        central.ForeignCache(caches[c]);
        assert old(central.Holds(c, caches[c], t));
      }
    }

    method StartClass(c: nat, ghost t: Tid) returns (cache: ClassCache)
      requires Valid() && c < CLASS_COUNT && t !in central.small[c].caches
      modifies impl, central
      ensures Valid() && Seen() == old(Seen()) && OnlyClass(old(central.small), central.small, c)
      ensures OthersKeep(old(central.small), central.small, {t}) == true && SameBlocks(old(impl.Now()))
      ensures AllIdle(old(central.small), central.small) == true
      ensures fresh(cache) && fresh(cache.slots) && central.Holds(c, cache, t)
    {
      ghost var mem, tiers := central.segments.mem, central.View();
      var writes;
      cache, writes := central.ArriveAt(c, t);
      UseRenews(writes, tiers, mem, central.View(), central.segments.mem, impl.mem);
      FollowThread(c, Arrive(t), writes);
    }

    /** The facade's part of a thread's step. */
    method FollowThread(ghost c: nat, ghost step: Step, writes: Memory -> Memory)
      requires impl.Valid() && central.Valid() && Intact(writes(impl.mem))
      requires Stepped(impl.tiers, central.View(), c, step, writes) == true
      modifies impl
      ensures Valid() && Seen() == old(Seen()) && SameBlocks(old(impl.Now()).(mem := writes(old(impl.mem))))
    {
      Foreign([]);
      ghost var v := impl.Now();
      impl.ThreadMoves(c, step, writes);
      ThreadedOnce(v.tiers, impl.tiers, central.View(), c, step);
      ViewHeaded(v, impl.config.tracking);
      HeldKept(v.mem, impl.mem, v.live);
      DamageKept(v.mem, impl.mem, v.live, impl.config.guards);
    }

    /** The caches of thread t from class c on are still to be flushed. */
    ghost predicate Remaining(caches: seq<ClassCache>, c: nat, t: Tid)
      reads central, CacheObjects(caches)
    {
      && |caches| == CLASS_COUNT && AllApart(caches)
      && forall d :: c <= d < CLASS_COUNT ==> central.Holds(d, caches[d], t)
    }

    ghost predicate GoneBelow(c: nat, t: Tid)
      reads central
    {
      c <= |central.small| && forall d :: 0 <= d < c ==> t !in central.small[d].caches
    }

    /** A thread ends: what its caches hold goes back, class by class. */
    method ThreadEnds(caches: seq<ClassCache>, ghost t: Tid)
      requires Valid() && central.Caches(caches, t) && |caches| == CLASS_COUNT
      modifies impl, central, central.Objects(), CacheObjects(caches)
      ensures Valid() && Seen() == old(Seen()) && central.NoCaches(t)
      ensures OthersKeep(old(central.small), central.small, {t}) == true
      ensures FlushedBelow(old(central.small), central.small, t, CLASS_COUNT) == true
    {
      var c := 0;
      ghost var small := central.small;
      NoneFlushed(small, t);
      while c < CLASS_COUNT
        invariant 0 <= c <= CLASS_COUNT && Valid() && Seen() == old(Seen())
        invariant Remaining(caches, c, t) && GoneBelow(c, t)
        invariant OthersKeep(small, central.small, {t}) == true && FlushedBelow(small, central.small, t, c) == true
      {
        ghost var before := central.small;
        EndNext(caches, c, t);
        OthersKeepTwice(small, before, central.small, {t});
        NextFlushed(small, before, central.small, t, c);
        c := c + 1;
      }
    }

    method EndNext(caches: seq<ClassCache>, c: nat, ghost t: Tid)
      requires Valid() && c < CLASS_COUNT && Remaining(caches, c, t) && GoneBelow(c, t)
      modifies impl, central, central.Objects(), CacheObjects(caches)
      ensures Valid() && Seen() == old(Seen()) && Remaining(caches, c + 1, t) && GoneBelow(c + 1, t)
      ensures OthersKeep(old(central.small), central.small, {t}) == true && OnlyClass(old(central.small), central.small, c) == true
      ensures |old(central.small)| == |central.small| == CLASS_COUNT && Flushed(old(central.small)[c], central.small[c], t) == true
    {
      CacheInside(caches, c);
      Foreign(caches);
      EndClass(c, caches[c], t);
      forall d | c < d < CLASS_COUNT
        ensures central.Holds(d, caches[d], t)
      {
        central.ForeignCache(caches[d]);
        assert old(central.Holds(d, caches[d], t));
      }
    }

    method EndClass(c: nat, cache: ClassCache, ghost t: Tid)
      requires Valid() && c < CLASS_COUNT && central.Holds(c, cache, t)
      modifies impl, central, central.Objects(), cache
      ensures Valid() && Seen() == old(Seen()) && OnlyClass(old(central.small), central.small, c)
      ensures OthersKeep(old(central.small), central.small, {t}) == true
      ensures |central.small| == CLASS_COUNT && t !in central.small[c].caches
      ensures |old(central.small)| == CLASS_COUNT && Flushed(old(central.small)[c], central.small[c], t) == true
    {
      ghost var mem, tiers := central.segments.mem, central.View();
      Foreign([cache]);
      var writes := central.LeaveFrom(c, cache, t);
      UseRenews(writes, tiers, mem, central.View(), central.segments.mem, impl.mem);
      FollowThread(c, Exit(t), writes);
    }
  }
}
