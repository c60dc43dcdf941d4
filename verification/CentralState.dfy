/** The three tiers on one system, as the program puts them together. */
module CentralStates {
  import opened Folding
  import opened SystemMemory
  import opened SizeClasses
  import opened Shards
  import opened PoolSystem
  import opened Pools
  import opened SegmentHeaps
  import opened LargeAllocators
  import opened Tiers
  import opened TierSteps
  import opened Mappings
  import opened TierWrites
  import opened TierImages
  import opened Tags
  import opened RawMemory
  import opened SegmentLayout
  import opened SegmentBins
  import opened SegmentSteps
  import opened FacadeSteps
  import opened CacheUse

  class CentralState {
    const os: Os
    const segments: SegmentHeap
    const large: LargeAllocator
    const shards: seq<PoolShard>
    /** Each class with the caches of all threads and the blocks of all clients. */
    ghost var small: seq<System>

    ghost function View(): State
      reads this, segments, large
    {
      State(small, segments.View(), large.regions)
    }

    ghost function Objects(): set<object> {
      (set s: PoolShard | s in shards :: s as object) + (set s: PoolShard | s in shards :: s.freeList as object)
    }

    ghost predicate Separate() {
      forall c, d :: 0 <= c < d < |shards| ==> shards[c] != shards[d] && shards[c].freeList != shards[d].freeList
    }

    ghost predicate ShardHeld(c: nat)
      requires c < |shards| && c < CLASS_COUNT
      reads this, shards[c], shards[c].freeList
    {
      shards[c].Valid(Stride(c)) && c < |small| && shards[c].View() == small[c].shard
    }

    /** All that holds apart from class c. */
    ghost predicate Around(c: nat)
      reads this, os, segments, segments.bins, Objects()
    {
      && |shards| == CLASS_COUNT == |small| && Separate() && segments.os == os && os.Valid() && segments.Valid()
      && forall d :: 0 <= d < CLASS_COUNT && d != c ==> (ShardInside(d); ShardHeld(d))
    }

    /** The invariant; compared with true, so that callers meet it as one fact. */
    ghost predicate Valid()
      reads this, os, segments, segments.bins, large, Objects()
    {
      (Around(CLASS_COUNT) && Housed(View(), os.mapped)) == true
    }

    /** Empty tiers on a system that may serve others as well. */
    constructor (os: Os)
      requires os.Valid()
      ensures Valid() && this.os == os && View() == START_STATE && forall t :: NoCaches(t)
      ensures fresh(segments) && fresh(segments.bins) && fresh(large) && fresh(Objects())
    {
      this.os := os;
      segments := new SegmentHeap(os);
      large := new LargeAllocator();
      var list := NewShards();
      shards := list;
      small := START_STATE.small;
      new;
      StartHoused(View(), os.mapped);
      assert forall d :: 0 <= d < CLASS_COUNT ==> ShardHeld(d);
    }

    // --------------------------------------------------------------------- small blocks

    /** allocateBlock of the pool. */
    method TakeFromPool(c: nat) returns (block: int, ghost answer: int)
      requires Valid() && c < CLASS_COUNT
      modifies os, shards[c], shards[c].freeList
      ensures Around(c) && small == old(small) && os.Valid()
      ensures shards[c].Valid(Stride(c)) && shards[c].Mapped(os)
      ensures Stride(c) > 0 && (shards[c].View(), block) == Take(small[c].shard, Stride(c), answer)
      ensures answer != 0 ==> FreshRun(small[c].shard.runs, answer)
      ensures block == 0 ==>
                && shards[c].View() == small[c].shard && os.refusals > old(os.refusals)
                && small[c].shard.free == [] && Exhausted(small[c].shard, Stride(c))
      ensures RunsGrown(old(os.mapped), os.mapped, small[c].shard.runs, shards[c].runs)
    {
      assert ShardHeld(c);
      RunsAreMapped(c);
      block, answer := shards[c].TakeBlock(Stride(c), os);
    }

    /** allocateBlock of a thread's cache. */
    method TakeFromCache(c: nat, cache: ClassCache, ghost t: Tid) returns (block: int, ghost g: Grant)
      requires Valid() && c < CLASS_COUNT && Holds(c, cache, t)
      modifies os, shards[c], shards[c].freeList, cache, cache.slots
      ensures Around(c) && small == old(small) && os.Valid() && cache.Valid()
      ensures shards[c].Valid(Stride(c)) && shards[c].Mapped(os) && g.CacheGrant? && g.t == t && t in small[c].caches
      ensures block == 0 ==>
                && shards[c].View() == small[c].shard && cache.View() == small[c].caches[t] == [] && os.refusals > old(os.refusals)
                && small[c].shard.free == [] && Stride(c) > 0 && Exhausted(small[c].shard, Stride(c))
      ensures block != 0 ==> SmallServes(small[c], Stride(c), g, WithCache(c, cache, t, block), block) == true
      ensures RunsGrown(old(os.mapped), os.mapped, small[c].shard.runs, shards[c].runs)
    {
      assert ShardHeld(c);
      RunsAreMapped(c);
      CachedPositive(View(), os.mapped, c, t);
      ghost var answers;
      block, answers := cache.AllocateBlock(shards[c], Stride(c), os);
      g := CacheGrant(t, answers);
      if block == 0 { OnlyEmptyFails(small[c].shard, small[c].caches[t], Stride(c), answers); }
    }

    /** Class c once the block was taken through the cache of thread t. */
    ghost function WithCache(c: nat, cache: ClassCache, t: Tid, block: int): System
      requires c < |small| && c < |shards|
      reads this, shards[c], shards[c].freeList, cache, cache.slots
    {
      System(shards[c].View(), small[c].caches[t := cache.View()], small[c].live + {block})
    }

    /** The cache is that of thread t for class c. */
    ghost predicate Holds(c: nat, cache: ClassCache, t: Tid)
      requires c < CLASS_COUNT
      reads this, cache, cache.slots
    {
      && cache.Valid() && (cache.slots as object) != segments.bins
      && c < |small| && t in small[c].caches && cache.View() == small[c].caches[t]
    }

    /** Class c takes on its new state. */
    ghost method Settle(c: nat, s': System)
      requires Around(c) && c < CLASS_COUNT && shards[c].Valid(Stride(c)) && shards[c].View() == s'.shard
      requires Housed(View().(small := small[c := s']), os.mapped)
      modifies this`small
      ensures Valid() && View() == old(View()).(small := old(small)[c := s'])
    {
      small := small[c := s'];
      forall d | 0 <= d < CLASS_COUNT
        ensures ShardHeld(d)
      {
        if d != c { assert old(ShardHeld(d)); }
      }
    }

    /** A small block was handed out: its class takes on the state s'. */
    ghost method SettleServed(size: nat, g: Grant, s': System, answer: Answer, mapped: map<int, nat>)
      requires size <= SMALL_MAX && Around(ClassIndex(size)) && Housed(View(), mapped) == true
      requires answer.Served? && answer.capacity == Stride(ClassIndex(size)) > 0 && forall m :: answer.writes(m) == m
      requires var c := ClassIndex(size);
               && SmallServes(small[c], Stride(c), g, s', answer.block) == true
               && shards[c].Valid(Stride(c)) && shards[c].View() == s'.shard && shards[c].Mapped(os)
               && RunsGrown(mapped, os.mapped, small[c].shard.runs, s'.shard.runs)
      modifies this`small
      ensures Valid() && Answered(old(View()), View(), size, answer, g) == true
      ensures Renews(answer.writes, old(View()), segments.mem, View(), segments.mem) == true
      ensures small == old(small)[ClassIndex(size) := s']
    {
      assert Opened(s', 0);
      SmallServed(View(), size, g, s', answer, mapped, os.mapped);
      SmallRenews(View(), size, g, s', answer, segments.mem);
      Settle(ClassIndex(size), s');
    }

    /** A small block was taken back: the same. */
    ghost method SettleTaken(c: nat, r: Raw, via: Via, taken: Taken)
      requires c < CLASS_COUNT && Around(c) && Housed(View(), os.mapped) == true && CanFree(View(), r, via) && r.owner == Small(c)
      requires shards[c].Valid(Stride(c)) && shards[c].View() == SmallFree(small[c], r.lo, via).shard
      requires taken.capacity == r.hi - r.lo
      requires forall m :: taken.writes(m) == LinkImage(m, shards[c].freeList.next, shards[c].freeList.contents)
      modifies this`small
      ensures Valid() && TookBack(old(View()), View(), r, taken, via) == true
      ensures Renews(taken.writes, old(View()), segments.mem, View(), segments.mem) == true
      ensures small == old(small)[c := SmallFree(old(small)[c], r.lo, via)]
    {
      ghost var t, next := View(), shards[c].freeList.next;
      SmallTaken(t, r, via, next, taken, os.mapped);
      LinksRenew(taken.writes, t, c, SmallFree(t.small[c], r.lo, via), next, shards[c].freeList.head, segments.mem, os.mapped);
      Settle(c, SmallFree(t.small[c], r.lo, via));
    }

    lemma ShardInside(c: nat)
      requires c < |shards|
      ensures shards[c] in Objects() && shards[c].freeList in Objects()
    {
      assert shards[c] in shards;
    }

    /** The shards are apart from the other objects. */
    lemma Foreign()
      ensures (segments as object) !in Objects() && (segments.bins as object) !in Objects()
      ensures (os as object) !in Objects() && (large as object) !in Objects() && (this as object) !in Objects()
    {}

    lemma ForeignCache(cache: ClassCache)
      ensures (cache as object) !in Objects() && (cache.slots as object) !in Objects()
    {}

    /** Class c is as it was. */
    lemma Resume(c: nat)
      requires Around(c) && c < CLASS_COUNT && ShardHeld(c) && Housed(View(), os.mapped)
      ensures Valid()
    {}

    /** rawAllocate's request for a small block, without a cache. */
    method ServeFromPool(size: nat) returns (answer: Answer, ghost g: Grant)
      requires Valid() && size <= SMALL_MAX
      modifies this`small, os, Objects()
      ensures Valid() && Answered(old(View()), View(), size, answer, g)
      ensures answer.Refused? ==> os.refusals > old(os.refusals)
      ensures answer.Served? ==> Renews(answer.writes, old(View()), old(segments.mem), View(), segments.mem) == true
      ensures answer.Refused? ==> segments.mem == old(segments.mem)
      ensures answer.Served? ==> Drew(old(small), small, ViaPool, size, answer.block) == true
      ensures answer.Refused? ==> small == old(small)
      ensures OthersKeep(old(small), small, {}) == true
    {
      Foreign();
      var c := ClassIndex(size);
      ghost var t, mapped := View(), os.mapped;
      ShardInside(c);
      var block, reply := TakeFromPool(c);
      g := PoolGrant(reply);
      if block == 0 {
        answer := Refused;
        SmallRefused(t, size, g, mapped, os.mapped);
        Resume(c);
      } else {
        answer := Served(block, Stride(c), m => m);
        ghost var s' := System(shards[c].View(), small[c].caches, small[c].live + {block});
        DrewPool(small, size, reply, s', block);
        SettleServed(size, g, s', answer, mapped);
      }
    }

    /** The same through the cache of thread t. */
    method ServeFromCache(size: nat, cache: ClassCache, ghost t: Tid) returns (answer: Answer, ghost g: Grant)
      requires Valid() && size <= SMALL_MAX && Holds(ClassIndex(size), cache, t)
      modifies this`small, os, Objects(), cache, cache.slots
      ensures Valid() && Answered(old(View()), View(), size, answer, g) && Holds(ClassIndex(size), cache, t)
      ensures OnlyClass(old(small), small, ClassIndex(size))
      ensures answer.Refused? ==> os.refusals > old(os.refusals)
      ensures answer.Served? ==> Renews(answer.writes, old(View()), old(segments.mem), View(), segments.mem) == true
      ensures answer.Refused? ==> segments.mem == old(segments.mem)
      ensures answer.Served? ==> Drew(old(small), small, ViaCache(t), size, answer.block) == true
      ensures answer.Refused? ==> small == old(small)
      ensures OthersKeep(old(small), small, {t}) == true
    {
      Foreign();
      var c := ClassIndex(size);
      ghost var v, mapped := View(), os.mapped;
      ShardInside(c);
      var block, grant := TakeFromCache(c, cache, t);
      g := grant;
      if block == 0 {
        answer := Refused;
        SmallRefused(v, size, g, mapped, os.mapped);
        Resume(c);
      } else {
        answer := Served(block, Stride(c), m => m);
        DrewCache(small, size, g, WithCache(c, cache, t, block), block);
        SettleServed(size, g, WithCache(c, cache, t, block), answer, mapped);
      }
    }

    /** rawDeallocate of a small block, without a cache. */
    method TakeToPool(c: nat, block: int, ghost r: Raw) returns (taken: Taken)
      requires Valid() && c < CLASS_COUNT && IsRaw(View(), r) && r.owner == Small(c) && r.lo == block
      modifies this`small, Objects()
      ensures Valid() && TookBack(old(View()), View(), r, taken, ViaPool)
      ensures Renews(taken.writes, old(View()), old(segments.mem), View(), segments.mem) == true
      ensures OthersKeep(old(small), small, {}) == true
      ensures GaveBack(old(small), small, ViaPool, Small(c), block) == true
    {
      Foreign();
      ghost var t := View();
      ShardInside(c);
      assert ShardHeld(c);
      HeldNotFree(t, os.mapped, r);
      shards[c].FreeBlock(Stride(c), block);
      var next, contents := shards[c].freeList.next, shards[c].freeList.contents;
      taken := Taken(Stride(c), m => LinkImage(m, next, contents));
      GaveBackSmall(small, c, ViaPool, block);
      SettleTaken(c, r, ViaPool, taken);
    }

    /** The same through the cache of thread t. */
    method TakeToCache(c: nat, block: int, cache: ClassCache, ghost t: Tid, ghost r: Raw) returns (taken: Taken)
      requires Valid() && c < CLASS_COUNT && IsRaw(View(), r) && r.owner == Small(c) && r.lo == block
      requires Holds(c, cache, t)
      modifies this`small, Objects(), cache, cache.slots
      ensures Valid() && TookBack(old(View()), View(), r, taken, ViaCache(t)) && Holds(c, cache, t)
      ensures Renews(taken.writes, old(View()), old(segments.mem), View(), segments.mem) == true
      ensures OnlyClass(old(small), small, c)
      ensures OthersKeep(old(small), small, {t}) == true
      ensures GaveBack(old(small), small, ViaCache(t), Small(c), block) == true
    {
      Foreign();
      ghost var v := View();
      ShardInside(c);
      assert ShardHeld(c);
      CachedPositive(v, os.mapped, c, t);
      cache.FreeBlock(block, shards[c], Stride(c));
      var next, contents := shards[c].freeList.next, shards[c].freeList.contents;
      taken := Taken(Stride(c), m => LinkImage(m, next, contents));
      GaveBackSmall(small, c, ViaCache(t), block);
      SettleTaken(c, r, ViaCache(t), taken);
    }

    lemma RunsAreMapped(c: nat)
      requires Valid() && c < CLASS_COUNT
      ensures shards[c].Mapped(os)
    {
      assert ShardHeld(c);
      OpenHoused(View(), os.mapped);
      forall i | 0 <= i < |shards[c].runs|
        ensures shards[c].runs[i] in os.mapped && os.mapped[shards[c].runs[i]] == RUN_SIZE
      {
        assert IsRegion(View(), Region(Small(c), shards[c].runs[i], RUN_SIZE));
      }
    }

    // -------------------------------------------------------------- medium and large

    /** allocate of the segment heap. */
    method TakeFromHeap(size: nat) returns (payload: int)
      requires Valid() && size <= MEDIUM_MAX
      modifies os, segments, segments.bins
      ensures Around(CLASS_COUNT) && small == old(small) && os.Valid()
      ensures payload == 0 ==>
                && segments.View() == old(segments.View()) && segments.mem == old(segments.mem)
                && os.mapped == old(os.mapped) && os.refusals > old(os.refusals)
                && NoFit(segments.View(), RoundedTotal(size + HEADER_SIZE))
      ensures payload != 0 ==>
                HeapGave(old(segments.View()), segments.View(), payload - BLOCK_HEADER_SIZE, RoundedTotal(size + HEADER_SIZE),
                         old(segments.mem), segments.mem, old(os.mapped), os.mapped) == true
    {
      MediumFitsSegment(size);
      payload := segments.Allocate(size + HEADER_SIZE);
      assert Opened(segments, 0);
    }

    /** deallocate of the segment heap. */
    method TakeToHeap(payload: int, ghost b: int)
      requires Valid() && b == payload - BLOCK_HEADER_SIZE && IsLive(segments.View(), b)
      modifies os, segments, segments.bins
      ensures Around(CLASS_COUNT) && small == old(small) && os.Valid()
      ensures HeapFreed(old(segments.View()), segments.View(), b, old(segments.mem), segments.mem, old(os.mapped), os.mapped) == true
    {
      segments.FreeWhole(payload - BLOCK_HEADER_SIZE);
      assert Opened(segments, 0);
    }

    method HeapCapacity(payload: int) returns (capacity: nat)
      requires Around(CLASS_COUNT) && payload - BLOCK_HEADER_SIZE in segments.blocks
      ensures capacity == segments.blocks[payload - BLOCK_HEADER_SIZE].size - BLOCK_HEADER_SIZE
    {
      assert Opened(segments, 0);
      capacity := segments.PayloadCapacity(payload);
    }

    /** All that follows from what the heap did when it took r back. */
    lemma HeapSettled(t: State, r: Raw, via: Via, taken: Taken, before: Mem, mapped: map<int, nat>)
      requires Around(CLASS_COUNT) && Housed(t, mapped) && IsRaw(t, r) && r.owner == Medium && taken.capacity == r.hi - r.lo
      requires HeapFreed(t.heap, segments.View(), r.lo - BLOCK_HEADER_SIZE, before, segments.mem, mapped, os.mapped) == true
      requires forall m :: taken.writes(m) == HeapImage(m, before, segments.mem, segments.blocks)
      ensures Housed(t.(heap := segments.View()), os.mapped) == true
      ensures TookBack(t, t.(heap := segments.View()), r, taken, via) == true
      ensures MediumFreed(taken, t.heap, segments.View(), r.lo, before, segments.mem) == true
      ensures Renews(taken.writes, t, before, t.(heap := segments.View()), segments.mem) == true
    {
      HeapTaken(t, r, via, segments.View(), before, segments.mem, taken, mapped, os.mapped);
      FreeRenews(taken.writes, t, segments.View(), r.lo - BLOCK_HEADER_SIZE, before, segments.mem, mapped, os.mapped);
      NodeAfter(t, r, taken, before, mapped);
    }

    lemma NodeAfter(t: State, r: Raw, taken: Taken, before: Mem, mapped: map<int, nat>)
      requires Around(CLASS_COUNT) && Housed(t, mapped) && IsRaw(t, r) && r.owner == Medium
      requires HeapFreed(t.heap, segments.View(), r.lo - BLOCK_HEADER_SIZE, before, segments.mem, mapped, os.mapped) == true
      requires forall m :: taken.writes(m) == HeapImage(m, before, segments.mem, segments.blocks)
      ensures MediumFreed(taken, t.heap, segments.View(), r.lo, before, segments.mem) == true
    {
      assert Opened(segments, 0);
      OpenHoused(t, mapped);
      MediumFreedAs(taken, t.heap, segments.View(), r.lo - BLOCK_HEADER_SIZE, before, segments.mem,
                    segments.bins[..], segments.chains, mapped, os.mapped);
    }

    /** rawAllocate's request for a medium block. */
    method ServeMedium(size: nat) returns (answer: Answer, ghost g: Grant)
      requires Valid() && SMALL_MAX < size <= MEDIUM_MAX
      modifies os, segments, segments.bins
      ensures Valid() && Answered(old(View()), View(), size, answer, g)
      ensures answer.Refused? ==> os.refusals > old(os.refusals)
      ensures answer.Served? ==> Renews(answer.writes, old(View()), old(segments.mem), View(), segments.mem) == true
      ensures answer.Refused? ==> segments.mem == old(segments.mem)
    {
      ghost var t, mapped := View(), os.mapped;
      var before := segments.mem;
      var payload := TakeFromHeap(size);
      if payload == 0 {
        answer, g := Refused, HeapGrant(0);
        HeapRefused(t, size, mapped);
      } else {
        var after, blocks := segments.mem, segments.blocks;
        var capacity := HeapCapacity(payload);
        answer, g := Served(payload, capacity, m => HeapImage(m, before, after, blocks)), HeapGrant(payload - BLOCK_HEADER_SIZE);
        HeapServed(t, size, segments.View(), payload - BLOCK_HEADER_SIZE, before, after, answer, mapped, os.mapped);
        ServeRenews(answer.writes, t, segments.View(), payload - BLOCK_HEADER_SIZE, RoundedTotal(size + HEADER_SIZE),
                    before, after, mapped, os.mapped);
      }
    }

    /** rawAllocate's request for a large block. */
    method ServeLarge(size: nat) returns (answer: Answer, ghost g: Grant)
      requires Valid() && size > MEDIUM_MAX
      modifies os, large
      ensures Valid() && Answered(old(View()), View(), size, answer, g)
      ensures answer.Refused? ==> os.refusals > old(os.refusals)
      ensures answer.Served? ==> Renews(answer.writes, old(View()), old(segments.mem), View(), segments.mem) == true
      ensures answer.Refused? ==> segments.mem == old(segments.mem)
    {
      ghost var t, mapped := View(), os.mapped;
      var payload := TakeMapping(size);
      if payload == 0 {
        answer, g := Refused, MapGrant(0, 0);
        LargeRefused(t, size, mapped);
      } else {
        ghost var n := large.regions[payload];
        var capacity := large.PayloadCapacity(payload);
        answer, g := Served(payload, capacity, m => m), MapGrant(payload - LARGE_OFFSET, n);
        LargeServed(t, size, payload - LARGE_OFFSET, n, answer, mapped, os.mapped);
        LargeRenews(answer.writes, t, View(), segments.mem);
      }
    }

    /** allocate of the large tier. */
    method TakeMapping(size: nat) returns (payload: int)
      requires Valid()
      modifies os, large
      ensures Around(CLASS_COUNT) && small == old(small) && segments.View() == old(segments.View())
      ensures payload == 0 ==>
                large.regions == old(large.regions) && os.mapped == old(os.mapped) && os.refusals > old(os.refusals)
      ensures payload != 0 ==>
                && payload in large.regions && large.regions == old(large.regions)[payload := large.regions[payload]]
                && size + HEADER_SIZE + LARGE_OFFSET <= large.regions[payload]
                && Fresh(old(os.mapped), payload - LARGE_OFFSET, large.regions[payload])
                && os.mapped == old(os.mapped)[payload - LARGE_OFFSET := large.regions[payload]]
    {
      ghost var mapped := os.mapped;
      payload := large.Allocate(size + HEADER_SIZE, os);
      if payload != 0 {
        FreshNotMapped(mapped, payload - LARGE_OFFSET, large.regions[payload]);
      }
    }

    /** deallocate of the large tier. */
    method DropMapping(payload: int)
      requires Valid() && payload in large.regions
      requires payload - LARGE_OFFSET in os.mapped && payload - LARGE_OFFSET !in segments.segments
      modifies os, large
      ensures Around(CLASS_COUNT) && small == old(small) && segments.View() == old(segments.View())
      ensures large.regions == old(large.regions) - {payload} && os.mapped == old(os.mapped) - {payload - LARGE_OFFSET}
    {
      var was := large.Deallocate(payload, os);
    }

    /** rawDeallocate of a medium block. */
    method TakeMedium(payload: int, ghost r: Raw, ghost via: Via) returns (taken: Taken)
      requires Valid() && IsRaw(View(), r) && r.owner == Medium && r.lo == payload
      modifies os, segments, segments.bins
      ensures Valid() && TookBack(old(View()), View(), r, taken, via) == true
      ensures Renews(taken.writes, old(View()), old(segments.mem), View(), segments.mem) == true
      ensures MediumFreed(taken, old(segments.View()), segments.View(), payload, old(segments.mem), segments.mem) == true
      ensures payload - BLOCK_HEADER_SIZE in old(segments.blocks)
      ensures SegmentGone(old(segments.View()), segments.View(), payload - BLOCK_HEADER_SIZE, old(os.mapped), os.mapped) == true
    {
      ghost var t, mapped := View(), os.mapped;
      var before := segments.mem;
      var capacity := HeapCapacity(payload);
      assert capacity == r.hi - r.lo;
      TakeToHeap(payload, r.lo - BLOCK_HEADER_SIZE);
      var after, blocks := segments.mem, segments.blocks;
      taken := Taken(capacity, m => HeapImage(m, before, after, blocks));
      HeapSettled(t, r, via, taken, before, mapped);
    }

    // ------------------------------------------------------------------------- all tiers

    /** Thread t has no caches. */
    ghost predicate NoCaches(t: Tid)
      reads this
    {
      forall c :: 0 <= c < |small| ==> t !in small[c].caches
    }

    /** The caches of thread t, one for each class; or none. */
    ghost predicate Caches(caches: seq<ClassCache>, t: Tid)
      reads this, CacheObjects(caches)
    {
      (|caches| == 0 ||
       (&& |caches| == CLASS_COUNT && AllApart(caches)
        && forall c :: 0 <= c < CLASS_COUNT ==> Holds(c, caches[c], t))) == true
    }

    /** rawAllocate's request, to the tier that the size calls for. */
    method ServeRaw(size: nat, caches: seq<ClassCache>, ghost t: Tid) returns (answer: Answer, ghost g: Grant)
      requires Valid() && Caches(caches, t)
      modifies this`small, os, segments, segments.bins, large, Objects(), CacheObjects(caches)
      ensures Valid() && Caches(caches, t) && Answered(old(View()), View(), size, answer, g)
      ensures answer.Refused? ==> os.refusals > old(os.refusals)
      ensures answer.Served? ==> Renews(answer.writes, old(View()), old(segments.mem), View(), segments.mem) == true
      ensures answer.Refused? ==> segments.mem == old(segments.mem)
      ensures answer.Served? ==> Drew(old(small), small, Way(caches, t), size, answer.block) == true
      ensures answer.Refused? ==> small == old(small)
      ensures OthersKeep(old(small), small, Users(caches, t)) == true
    {
      if size <= SMALL_MAX {
        answer, g := ServeSmall(size, caches, t);
      } else {
        if size <= MEDIUM_MAX {
          answer, g := ServeMedium(size);
        } else {
          answer, g := ServeLarge(size);
        }
        if answer.Served? { DrewElsewhere(small, Way(caches, t), size, answer.block); }
        forall d | 0 <= d < |caches|
          ensures Holds(d, caches[d], t)
        {
          assert old(Holds(d, caches[d], t));
        }
      }
    }

    method ServeSmall(size: nat, caches: seq<ClassCache>, ghost t: Tid) returns (answer: Answer, ghost g: Grant)
      requires Valid() && Caches(caches, t) && size <= SMALL_MAX
      modifies this`small, os, Objects(), CacheObjects(caches)
      ensures Valid() && Caches(caches, t) && Answered(old(View()), View(), size, answer, g)
      ensures answer.Refused? ==> os.refusals > old(os.refusals)
      ensures answer.Served? ==> Renews(answer.writes, old(View()), old(segments.mem), View(), segments.mem) == true
      ensures answer.Refused? ==> segments.mem == old(segments.mem)
      ensures answer.Served? ==> Drew(old(small), small, Way(caches, t), size, answer.block) == true
      ensures answer.Refused? ==> small == old(small)
      ensures OthersKeep(old(small), small, Users(caches, t)) == true
    {
      Foreign();
      if |caches| > 0 {
        var c := ClassIndex(size);
        CacheInside(caches, c);
        assert Holds(c, caches[c], t);
        answer, g := ServeFromCache(size, caches[c], t);
        forall d | 0 <= d < |caches| && d != c
          ensures Holds(d, caches[d], t)
        {
          assert old(Holds(d, caches[d], t));
        }
      } else {
        answer, g := ServeFromPool(size);
      }
    }

    /** rawDeallocate's request, to the tier and class that the header gave. */
    method TakeRaw(owner: Owner, block: int, caches: seq<ClassCache>, ghost t: Tid, ghost r: Raw)
      returns (taken: Taken, ghost via: Via)
      requires Valid() && Caches(caches, t) && IsRaw(View(), r) && r.owner == owner && r.lo == block
      modifies this`small, os, segments, segments.bins, large, Objects(), CacheObjects(caches)
      ensures Valid() && Caches(caches, t) && TookBack(old(View()), View(), r, taken, via)
      ensures Renews(taken.writes, old(View()), old(segments.mem), View(), segments.mem) == true
      ensures owner.Medium? ==>
                MediumFreed(taken, old(segments.View()), segments.View(), block, old(segments.mem), segments.mem) == true
      ensures OthersKeep(old(small), small, Users(caches, t)) == true
      ensures GaveBack(old(small), small, Way(caches, t), owner, block) == true
      ensures owner.Medium? ==>
                && block - BLOCK_HEADER_SIZE in old(segments.blocks)
                && SegmentGone(old(segments.View()), segments.View(), block - BLOCK_HEADER_SIZE, old(os.mapped), os.mapped) == true
    {
      if owner.Small? {
        taken, via := TakeSmall(owner.class_, block, caches, t, r);
      } else {
        via := ViaPool;
        GaveBackElsewhere(small, Way(caches, t), owner, block);
        if owner.Medium? {
          taken := TakeMedium(block, r, via);
        } else {
          taken := TakeLarge(block, r, via);
        }
        forall d | 0 <= d < |caches|
          ensures Holds(d, caches[d], t)
        {
          assert old(Holds(d, caches[d], t));
        }
      }
    }

    method TakeSmall(c: nat, block: int, caches: seq<ClassCache>, ghost t: Tid, ghost r: Raw)
      returns (taken: Taken, ghost via: Via)
      requires Valid() && Caches(caches, t) && IsRaw(View(), r) && r.owner == Small(c) && r.lo == block
      modifies this`small, Objects(), CacheObjects(caches)
      ensures Valid() && Caches(caches, t) && TookBack(old(View()), View(), r, taken, via)
      ensures Renews(taken.writes, old(View()), old(segments.mem), View(), segments.mem) == true
      ensures OthersKeep(old(small), small, Users(caches, t)) == true
      ensures GaveBack(old(small), small, Way(caches, t), Small(c), block) == true
    {
      Foreign();
      if |caches| > 0 {
        CacheInside(caches, c);
        assert Holds(c, caches[c], t);
        via := ViaCache(t);
        taken := TakeToCache(c, block, caches[c], t, r);
        forall d | 0 <= d < |caches| && d != c
          ensures Holds(d, caches[d], t)
        {
          assert old(Holds(d, caches[d], t));
        }
      } else {
        via := ViaPool;
        taken := TakeToPool(c, block, r);
      }
    }

    // --------------------------------------------------------------------------- threads

    /** A thread's cache for class c is created. */
    method ArriveAt(c: nat, ghost t: Tid) returns (cache: ClassCache, writes: Memory -> Memory)
      requires Valid() && c < CLASS_COUNT && t !in small[c].caches
      modifies this`small
      ensures Valid() && fresh(cache) && fresh(cache.slots) && Holds(c, cache, t) && OnlyClass(old(small), small, c)
      ensures Stepped(old(View()), View(), c, Arrive(t), writes) && forall m :: writes(m) == m
      ensures Renews(writes, old(View()), old(segments.mem), View(), segments.mem) == true
      ensures OthersKeep(old(small), small, {t}) == true
      ensures AllIdle(old(small), small) == true
    {
      ghost var v := View();
      assert ShardHeld(c);
      cache := new ClassCache();
      writes := m => m;
      ArriveStepped(v, c, t, writes, os.mapped);
      PoolRenews(writes, v, c, Threaded(v, c, Arrive(t)).small[c], segments.mem);
      ArriveIsIdle(small, c, t);
      Settle(c, Threaded(v, c, Arrive(t)).small[c]);
    }

    /** What the destructor of a thread's cache does for class c. */
    method LeaveFrom(c: nat, cache: ClassCache, ghost t: Tid) returns (writes: Memory -> Memory)
      requires Valid() && c < CLASS_COUNT && Holds(c, cache, t)
      modifies this`small, Objects(), cache
      ensures Valid() && Stepped(old(View()), View(), c, Exit(t), writes) && OnlyClass(old(small), small, c)
      ensures c < |small| && t !in small[c].caches && Flushed(old(small)[c], small[c], t) == true
      ensures Renews(writes, old(View()), old(segments.mem), View(), segments.mem) == true
      ensures OthersKeep(old(small), small, {t}) == true
    {
      Foreign();
      ghost var v := View();
      ShardInside(c);
      assert ShardHeld(c);
      CachedPositive(v, os.mapped, c, t);
      ExitFlushes(small[c], Stride(c), t);
      cache.Drain(shards[c], Stride(c));
      var next, contents := shards[c].freeList.next, shards[c].freeList.contents;
      writes := m => LinkImage(m, next, contents);
      ExitStepped(v, c, t, next, writes, os.mapped);
      LinksRenew(writes, v, c, Threaded(v, c, Exit(t)).small[c], next, shards[c].freeList.head, segments.mem, os.mapped);
      Settle(c, Threaded(v, c, Exit(t)).small[c]);
    }

    /** rawDeallocate of a large block. */
    method TakeLarge(payload: int, ghost r: Raw, ghost via: Via) returns (taken: Taken)
      requires Valid() && IsRaw(View(), r) && r.owner == Large && r.lo == payload
      modifies os, large
      ensures Valid() && TookBack(old(View()), View(), r, taken, via)
      ensures Renews(taken.writes, old(View()), old(segments.mem), View(), segments.mem) == true
    {
      ghost var t, mapped := View(), os.mapped;
      LargeIsMapped(t, r, mapped);
      var capacity := large.PayloadCapacity(payload);
      taken := Taken(capacity, m => m);
      LargeTaken(t, r, via, taken, mapped);
      DropMapping(payload);
      LargeRenews(taken.writes, t, View(), segments.mem);
    }
  }

  ghost function CacheObjects(caches: seq<ClassCache>): set<object> {
    (set s: ClassCache | s in caches :: s as object) + (set s: ClassCache | s in caches :: s.slots as object)
  }

  ghost predicate AllApart(caches: seq<ClassCache>) {
    forall c, d :: 0 <= c < d < |caches| ==> caches[c] != caches[d] && caches[c].slots != caches[d].slots
  }

  lemma CacheInside(caches: seq<ClassCache>, c: nat)
    requires c < |caches|
    ensures caches[c] in CacheObjects(caches) && caches[c].slots in CacheObjects(caches)
  {
    assert caches[c] in caches;
  }

  /** The threads that the caches belong to. */
  ghost function Users(caches: seq<ClassCache>, t: Tid): set<Tid> {
    if |caches| == 0 then {} else {t}
  }

  /** The caches of thread u, in all classes, are as they were. */
  ghost predicate SameCaches(small: seq<System>, small': seq<System>, u: Tid) {
    |small| == |small'| && forall c :: 0 <= c < |small| ==> SameCache(small[c], small'[c], u)
  }

  ghost predicate SameCache(s: System, s': System, u: Tid) {
    (u in s'.caches <==> u in s.caches) && (u in s.caches ==> s'.caches[u] == s.caches[u])
  }

  /** The way from the tier to the thread: through its caches, or none. */
  ghost function Way(caches: seq<ClassCache>, t: Tid): Via {
    if |caches| > 0 then ViaCache(t) else ViaPool
  }

  /** The caches of all threads but the ones in use are as they were. */
  ghost predicate OthersKeep(small: seq<System>, small': seq<System>, used: set<Tid>) {
    forall u :: u !in used ==> SameCaches(small, small', u)
  }

  lemma OthersKeepTwice(small: seq<System>, small': seq<System>, small'': seq<System>, used: set<Tid>)
    requires OthersKeep(small, small', used) && OthersKeep(small', small'', used)
    ensures OthersKeep(small, small'', used)
  {
    forall u | u !in used
      ensures SameCaches(small, small'', u)
    {
      assert SameCaches(small, small', u) && SameCaches(small', small'', u);
      forall c | 0 <= c < |small|
        ensures SameCache(small[c], small''[c], u)
      {
        assert SameCache(small[c], small'[c], u) && SameCache(small'[c], small''[c], u);
      }
    }
  }

  ghost predicate OnlyClass(small: seq<System>, small': seq<System>, c: nat) {
    |small| == |small'| && forall d :: 0 <= d < |small| && d != c ==> small'[d] == small[d]
  }

  /** The shards of a pool. */
  method NewShards() returns (list: seq<PoolShard>)
    ensures |list| == CLASS_COUNT
    ensures forall c :: 0 <= c < CLASS_COUNT ==>
              fresh(list[c]) && fresh(list[c].freeList) && list[c].Valid(Stride(c)) && list[c].View() == Shards.EMPTY
    ensures forall c, d :: 0 <= c < d < CLASS_COUNT ==> list[c] != list[d] && list[c].freeList != list[d].freeList
  {
    list := [];
    while |list| < CLASS_COUNT
      invariant |list| <= CLASS_COUNT
      invariant forall c :: 0 <= c < |list| ==>
                  fresh(list[c]) && fresh(list[c].freeList) && list[c].Valid(Stride(c)) && list[c].View() == Shards.EMPTY
      invariant forall c, d :: 0 <= c < d < |list| ==> list[c] != list[d] && list[c].freeList != list[d].freeList
    {
      StrideFits(|list|);
      var s := new PoolShard(Stride(|list|));
      list := list + [s];
    }
  }
}
