/** From what the classes of the tiers promise to what the facade asks of a tier: each
    operation is one the composite state allows, on mappings that are fresh across all
    tiers, and writes only bytes of its own. */
module TierSteps {
  import opened Folding
  import opened SystemMemory
  import opened SizeClasses
  import opened Shards
  import opened PoolSystem
  import opened Pools
  import opened SegmentLayout
  import opened SegmentBins
  import opened SegmentSteps
  import opened Tags
  import opened Tiers
  import opened TierWrites
  import opened TierImages
  import opened Mappings
  import opened FacadeSteps
  import opened Sums
  import Raws = RawMemory

  /** The tiers are sound and own what the system has mapped for them. */
  ghost predicate Housed(t: State, mapped: map<int, nat>) {
    |t.small| == CLASS_COUNT && forall key {:trigger Opened(t, key)} :: Opened(t, key) ==> Lodged(t, mapped)
  }

  ghost predicate Lodged(t: State, mapped: map<int, nat>) {
    TiersOK(t) && Owned(t, mapped) && MappedOK(mapped)
  }

  lemma OpenHoused(t: State, mapped: map<int, nat>)
    requires Housed(t, mapped)
    ensures Lodged(t, mapped)
  {
    assert Opened(t, 0);
  }

  lemma StartHoused(t: State, mapped: map<int, nat>)
    requires t == START_STATE && MappedOK(mapped)
    ensures Housed(t, mapped)
  {
    StartOK();
    NothingOwned(t, mapped);
  }

  lemma NothingOwned(t: State, mapped: map<int, nat>)
    requires t == START_STATE
    ensures Owned(t, mapped)
  {
    forall g
      ensures !IsRegion(t, g)
    {}
  }

  lemma NothingReflected(m: Raws.Memory, t: State, mem: Mem)
    requires t == START_STATE
    ensures Reflected(m, t, mem) == true
  {}

  /** Mappings for others do not matter. */
  lemma HousedGrows(t: State, mapped: map<int, nat>, mapped': map<int, nat>)
    requires Housed(t, mapped) && MappedOK(mapped') && forall b :: b in mapped ==> b in mapped' && mapped'[b] == mapped[b]
    ensures Housed(t, mapped')
  {
    OpenHoused(t, mapped);
    OwnedGrows(t, t, mapped, mapped');
  }

  // ------------------------------------------------------------- memory and the tiers

  /** Memory that holds what the tiers keep in it before the operation does so after. */
  ghost predicate Renews(writes: Raws.Memory -> Raws.Memory, t: State, mem: Mem, t': State, mem': Mem) {
    forall key {:trigger Opened(writes, key)} :: Opened(writes, key) ==> RenewsAll(writes, t, mem, t', mem')
  }

  ghost predicate RenewsAll(writes: Raws.Memory -> Raws.Memory, t: State, mem: Mem, t': State, mem': Mem) {
    forall m :: Carries(m, t, mem) ==> Carries(writes(m), t', mem')
  }

  lemma UseRenews(writes: Raws.Memory -> Raws.Memory, t: State, mem: Mem, t': State, mem': Mem, m: Raws.Memory)
    requires Renews(writes, t, mem, t', mem') == true && Reflected(m, t, mem) == true
    ensures Reflected(writes(m), t', mem') == true
  {
    assert Opened(writes, 0) && Opened(m, 0);
  }

  ghost predicate Suffix(q: seq<int>, q': seq<int>) {
    |q'| <= |q| && q' == q[|q| - |q'|..]
  }

  /** Blocks are only taken off the free list of a class, and nothing is written. */
  lemma PoolRenews(writes: Raws.Memory -> Raws.Memory, t: State, c: nat, s': System, mem: Mem)
    requires c < |t.small| && Suffix(t.small[c].shard.free, s'.shard.free) && forall m :: writes(m) == m
    ensures Renews(writes, t, mem, t.(small := t.small[c := s']), mem) == true
  {
    forall m: Raws.Memory | Carries(m, t, mem)
      ensures Carries(writes(m), t.(small := t.small[c := s']), mem)
    {
      var free, free' := t.small[c].shard.free, s'.shard.free;
      ListDropped(m, free, |free| - |free'|);
    }
  }

  lemma {:induction false} BatchSuffix(s: Shard, stride: nat, n: nat, answers: seq<int>)
    requires stride > 0
    ensures Suffix(s.free, TakeBatch(s, stride, n, answers).0.free)
    decreases n
  {
    if n > 0 {
      var (s1, b) := Take(s, stride, Needed(s, stride, answers));
      if b != 0 { BatchSuffix(s1, stride, n - 1, Unused(s, stride, answers)); }
    }
  }

  lemma CacheSuffix(s: Shard, q: seq<int>, stride: nat, answers: seq<int>)
    requires stride > 0
    ensures Suffix(s.free, CacheAllocate(s, q, stride, answers).0.free)
  {
    BatchSuffix(s, stride, BATCH_SIZE, answers);
  }

  /** A small block was served. */
  lemma SmallRenews(t: State, size: nat, g: Grant, s': System, a: Answer, mem: Mem)
    requires |t.small| == CLASS_COUNT && size <= SMALL_MAX && a.Served? && forall m :: a.writes(m) == m
    requires var c := ClassIndex(size); Stride(c) > 0 && (s', a.block) == SmallServe(t.small[c], Stride(c), g)
    ensures Renews(a.writes, t, mem, t.(small := t.small[ClassIndex(size) := s']), mem) == true
  {
    var c := ClassIndex(size);
    if g.CacheGrant? && g.t in t.small[c].caches {
      CacheSuffix(t.small[c].shard, t.small[c].caches[g.t], Stride(c), g.answers);
    }
    PoolRenews(a.writes, t, c, s', mem);
  }

  /** Only the large tier changes. */
  lemma LargeRenews(writes: Raws.Memory -> Raws.Memory, t: State, t': State, mem: Mem)
    requires t'.small == t.small && t'.heap == t.heap && forall m :: writes(m) == m
    ensures Renews(writes, t, mem, t', mem) == true
  {}

  /** The segment heap serves. */
  lemma ServeRenews(writes: Raws.Memory -> Raws.Memory, t: State, l': Layout, b: int, total: nat, mem: Mem, mem': Mem,
                    mapped: map<int, nat>, mapped': map<int, nat>)
    requires Housed(t.(heap := l'), mapped') && HeapGave(t.heap, l', b, total, mem, mem', mapped, mapped') == true
    requires forall m :: writes(m) == HeapImage(m, mem, mem', l'.blocks)
    ensures Renews(writes, t, mem, t.(heap := l'), mem') == true
  {
    OpenHoused(t.(heap := l'), mapped');
    OnlyMetaWeaken(mem, mem', l'.blocks.Keys, NotHeld(t.heap.blocks, l'.blocks), l'.blocks.Keys, l'.blocks.Keys);
    ImageCarries(writes, t, t.(heap := l'), t.(heap := l'), mem, mem');
  }

  /** It takes a block back. */
  lemma FreeRenews(writes: Raws.Memory -> Raws.Memory, t: State, l': Layout, b: int, mem: Mem, mem': Mem,
                   mapped: map<int, nat>, mapped': map<int, nat>)
    requires Housed(t, mapped) && Housed(t.(heap := l'), mapped')
    requires HeapFreed(t.heap, l', b, mem, mem', mapped, mapped') == true
    requires forall m :: writes(m) == HeapImage(m, mem, mem', l'.blocks)
    ensures Renews(writes, t, mem, t.(heap := l'), mem') == true
  {
    OpenHoused(t, mapped);
    OpenHoused(t.(heap := l'), mapped');
    FreedKeys(t.heap, b);
    OnlyMetaWeaken(mem, mem', t.heap.blocks.Keys, FreedNodes(t.heap, b), t.heap.blocks.Keys, t.heap.blocks.Keys);
    ImageCarries(writes, t, t.(heap := l'), t, mem, mem');
  }

  lemma FreedKeys(l: Layout, b: int)
    requires b in l.blocks && l.blocks[b].size > 0
    ensures FreeAt(l, b).blocks.Keys <= l.blocks.Keys && FreedNodes(l, b) <= l.blocks.Keys
  {}

  /** The heap's image, where u is whichever of the two states has more blocks. */
  lemma ImageCarries(writes: Raws.Memory -> Raws.Memory, t: State, t': State, u: State, mem: Mem, mem': Mem)
    requires TiersOK(u) && TiersOK(t') && u.small == t.small == t'.small && t'.heap.blocks.Keys <= u.heap.blocks.Keys
    requires OnlyMeta(mem, mem', u.heap.blocks.Keys, u.heap.blocks.Keys)
    requires forall m :: writes(m) == HeapImage(m, mem, mem', t'.heap.blocks)
    ensures Renews(writes, t, mem, t', mem') == true
  {
    SegmentsAligned(t');
    forall m: Raws.Memory | Carries(m, t, mem)
      ensures Carries(writes(m), t', mem')
    {
      ImageReflects(m, mem, mem', t'.heap);
      ListsBesideHeap(u, m, mem, mem', t'.heap.blocks);
    }
  }

  lemma SegmentsAligned(t: State)
    requires TiersOK(t)
    ensures forall s :: s in t.heap.segs ==> s % 16 == 0
  {
    forall s | s in t.heap.segs
      ensures s % 16 == 0
    {
      assert IsRegion(t, Region(Medium, s, SEGMENT_SIZE));
    }
  }

  /** The free list of a class is written anew. */
  lemma LinksRenew(writes: Raws.Memory -> Raws.Memory, t: State, c: nat, s': System, next: map<int, int>, head: int,
                   mem: Mem, mapped: map<int, nat>)
    requires c < CLASS_COUNT == |t.small| && Housed(t.(small := t.small[c := s']), mapped)
    requires ListOK(next, head, s'.shard.free) && forall m :: writes(m) == LinkImage(m, next, s'.shard.free)
    ensures Renews(writes, t, mem, t.(small := t.small[c := s']), mem) == true
  {
    var t' := t.(small := t.small[c := s']);
    OpenHoused(t', mapped);
    FreePositive(t', c);
    forall m: Raws.Memory | Carries(m, t, mem)
      ensures Carries(writes(m), t', mem)
    {
      ReflectedBesideLinks(t', c, m, next, mem);
      ListsRenewed(t, t', c, m, next, head);
    }
  }

  lemma FreePositive(t: State, c: nat)
    requires TiersOK(t) && c < CLASS_COUNT
    ensures forall b :: b in t.small[c].shard.free ==> b % 16 == 0 && b > 0
  {
    forall b | b in t.small[c].shard.free
      ensures b % 16 == 0 && b > 0
    {
      var g := LinkRegion(t, c, b);
    }
  }

  lemma ListsRenewed(t: State, t': State, c: nat, m: Raws.Memory, next: map<int, int>, head: int)
    requires TiersOK(t') && c < CLASS_COUNT == |t.small| && t'.small == t.small[c := t'.small[c]]
    requires ListOK(next, head, t'.small[c].shard.free) && ListsIn(m, t.small)
    requires forall b :: b in t'.small[c].shard.free ==> b % 16 == 0 && b > 0
    ensures ListsIn(LinkImage(m, next, t'.small[c].shard.free), t'.small)
  {
    var m' := LinkImage(m, next, t'.small[c].shard.free);
    forall d | 0 <= d < |t'.small|
      ensures ListIn(m', t'.small[d].shard.free)
    {
      if d == c {
        ImageLinks(m, next, head, t'.small[c].shard.free);
      } else {
        assert ListIn(m, t.small[d].shard.free);
        LinksBeside(t', c, d, m, next);
      }
    }
  }

  /** The facade's writes, inside blocks that are handed out, do not matter either. */
  lemma ReflectedThrough(t: State, mapped: map<int, nat>, m: Raws.Memory, m': Raws.Memory, r: Raw, mem: Mem)
    requires Housed(t, mapped) && IsRaw(t, r) && Raws.Only(m, m', r.lo, r.hi) == true
    requires Reflected(m, t, mem) == true
    ensures Reflected(m', t, mem) == true
  {
    OpenHoused(t, mapped);
    assert Opened(m, 0);
    ReflectedOutside(t, m, m', r, mem);
    ListsOutside(t, m, m', r);
  }

  // ------------------------------------------------------------------------ allocation

  /** The tiers went from t to t' answering a request: they refused and changed nothing, or
      served it. */
  ghost predicate Answered(t: State, t': State, size: nat, a: Answer, g: Grant) {
    AnswerOK(t, size, a, g) && if a.Refused? then t' == t else HandedOver(t, t', size, g)
  }

  lemma SmallRefused(t: State, size: nat, g: Grant, mapped: map<int, nat>, mapped': map<int, nat>)
    requires Housed(t, mapped) && MappedOK(mapped') && forall b :: b in mapped ==> b in mapped' && mapped'[b] == mapped[b]
    requires size <= SMALL_MAX && Starved(t, size, g)
    ensures Housed(t, mapped') && Answered(t, t, size, Refused, g)
  {
    HousedGrows(t, mapped, mapped');
  }

  lemma OnlyEmptyFails(s: Shard, q: seq<int>, stride: nat, answers: seq<int>)
    requires stride > 0 && (forall b :: b in q ==> b != 0) && CacheAllocate(s, q, stride, answers).2 == 0
    ensures q == []
  {
    var b := CacheAllocate(s, q, stride, answers).2;
    assert q == [] || b in q;
  }

  /** What a cache holds are blocks, each once, and none of them on the free list. */
  lemma CachedPositive(t: State, mapped: map<int, nat>, c: nat, tid: Tid)
    requires Housed(t, mapped) && c < CLASS_COUNT && tid in t.small[c].caches
    ensures NoDup(t.small[c].caches[tid])
    ensures forall b :: b in t.small[c].caches[tid] ==> b != 0 && b !in t.small[c].shard.free
  {
    OpenHoused(t, mapped);
    assert ClassOK(t.small[c], Stride(c));
    var loc :| Placed(t.small[c], loc, Stride(c));
    assert CachePlaced(t.small[c].caches[tid], loc, tid);
    forall b | b in t.small[c].caches[tid]
      ensures b != 0 && b !in t.small[c].shard.free
    {
      PlacedPositive(t.small[c], loc, Stride(c), b);
    }
  }

  /** A block with a client is not on the free list. */
  lemma HeldNotFree(t: State, mapped: map<int, nat>, r: Raw)
    requires Housed(t, mapped) && IsRaw(t, r) && r.owner.Small?
    ensures r.lo != 0 && r.lo !in t.small[r.owner.class_].shard.free
  {
    var c := r.owner.class_;
    OpenHoused(t, mapped);
    assert ClassOK(t.small[c], Stride(c));
    var loc :| Placed(t.small[c], loc, Stride(c));
    PlacedPositive(t.small[c], loc, Stride(c), r.lo);
  }

  /** The new state of one class: the runs it gained are fresh. */
  lemma SmallServed(t: State, size: nat, g: Grant, s': System, a: Answer, mapped: map<int, nat>, mapped': map<int, nat>)
    requires Housed(t, mapped) && MappedOK(mapped') && size <= SMALL_MAX
    requires var c := ClassIndex(size);
             && a.Served? && a.capacity == Stride(c) > 0 && (forall m :: a.writes(m) == m)
             && (s', a.block) == SmallServe(t.small[c], Stride(c), g) && SmallAllowed(t.small[c], Stride(c), g)
             && RunsGrown(mapped, mapped', t.small[c].shard.runs, s'.shard.runs)
             && forall x :: x in s'.shard.runs ==> x in mapped' && mapped'[x] == RUN_SIZE
    ensures var c := ClassIndex(size);
            && Housed(t.(small := t.small[c := s']), mapped') && Serve(t, size, g) == t.(small := t.small[c := s'])
            && AnswerOK(t, size, a, g)
  {
    var c := ClassIndex(size);
    OpenHoused(t, mapped);
    RunsGain(t, c, s', mapped, mapped');
    OwnedGrows(t, t.(small := t.small[c := s']), mapped, mapped');
    ServeSmall(t, size, g);
    ServeKeeps(t, size, g);
    SmallAnswers(t, size, g, a);
  }

  lemma ServeSmall(t: State, size: nat, g: Grant)
    requires |t.small| == CLASS_COUNT && size <= SMALL_MAX && Stride(ClassIndex(size)) > 0
    ensures var c := ClassIndex(size);
            var (s', b) := SmallServe(t.small[c], Stride(c), g);
            Serve(t, size, g) == t.(small := t.small[c := s']) && Given(t, size, g) == Raw(Small(c), b, b + Stride(c))
  {}

  lemma SmallAnswers(t: State, size: nat, g: Grant, a: Answer)
    requires |t.small| == CLASS_COUNT && size <= SMALL_MAX && Allowed(t, size, g)
    requires a.Served? && a.capacity == Stride(ClassIndex(size)) && (forall m :: a.writes(m) == m)
    requires var c := ClassIndex(size); Given(t, size, g) == Raw(Small(c), a.block, a.block + Stride(c))
    ensures AnswerOK(t, size, a, g)
  {}

  /** What allocate of the segment heap promises. */
  ghost predicate HeapGave(l: Layout, l': Layout, b: int, total: nat, mem: Mem, mem': Mem,
                           mapped: map<int, nat>, mapped': map<int, nat>)
  {
    && Granted(l, l', b, total) && Request(total) && b in l'.blocks
    && (if l'.segs == l.segs then mapped' == mapped
        else Fresh(mapped, b, SEGMENT_SIZE) && mapped' == mapped[b := SEGMENT_SIZE])
    && OnlyMeta(mem, mem', l'.blocks.Keys, NotHeld(l.blocks, l'.blocks))
  }

  /** A block of the segment heap. */
  lemma HeapServed(t: State, size: nat, l': Layout, b: int, mem: Mem, mem': Mem, a: Answer,
                   mapped: map<int, nat>, mapped': map<int, nat>)
    requires Housed(t, mapped) && MappedOK(mapped') && SMALL_MAX < size <= MEDIUM_MAX
    requires HeapGave(t.heap, l', b, RoundedTotal(size + HEADER_SIZE), mem, mem', mapped, mapped') == true
    requires b in l'.blocks && a.Served? && a.capacity == l'.blocks[b].size - BLOCK_HEADER_SIZE
    requires a.block == b + BLOCK_HEADER_SIZE && forall m :: a.writes(m) == HeapImage(m, mem, mem', l'.blocks)
    ensures var g := HeapGrant(b);
            && Housed(t.(heap := l'), mapped') && Serve(t, size, g) == t.(heap := l')
            && AnswerOK(t, size, a, g)
  {
    var g, total := HeapGrant(b), RoundedTotal(size + HEADER_SIZE);
    OpenHoused(t, mapped);
    RoundedTotalExact(size + HEADER_SIZE);
    GrantedIsAllowed(t.heap, l', b, total);
    ServeMedium(t, size, g);
    SegmentsAfter(t.heap, l', b, total);
    if l'.segs == t.heap.segs { NoSegmentGains(t, l', mapped); } else { SegmentGains(t, l', b, mapped); }
    OwnedGrows(t, t.(heap := l'), mapped, mapped');
    MediumServeKeeps(t, size, g);
    HeapServeKeeps(t.heap, b, total);
    forall m: Raws.Memory
      ensures Quiet(t.(heap := l'), t, m, a.writes(m))
    {
      HeapServeQuiet(t, l', mem, mem', b, Held(l'.blocks[b].size, l'.blocks[b].home), m);
    }
  }

  lemma SegmentsAfter(l: Layout, l': Layout, b: int, total: nat)
    requires Granted(l, l', b, total)
    ensures forall s :: s in l'.segs ==> s in l.segs || s == b
  {}

  /** A mapping of its own. */
  lemma LargeServed(t: State, size: nat, base: int, n: nat, a: Answer, mapped: map<int, nat>, mapped': map<int, nat>)
    requires Housed(t, mapped) && MappedOK(mapped') && size > MEDIUM_MAX && n >= size + HEADER_SIZE + LARGE_OFFSET
    requires Fresh(mapped, base, n) && mapped' == mapped[base := n]
    requires a.Served? && a.block == base + LARGE_OFFSET && a.capacity == n - LARGE_OFFSET && forall m :: a.writes(m) == m
    ensures var g, t' := MapGrant(base, n), t.(large := t.large[base + LARGE_OFFSET := n]);
            && Housed(t', mapped') && Serve(t, size, g) == t'
            && AnswerOK(t, size, a, g)
  {
    OpenHoused(t, mapped);
    NewPayload(t, base, n, mapped);
    LargeGains(t, base, n, mapped);
    OwnedGrows(t, t.(large := t.large[base + LARGE_OFFSET := n]), mapped, mapped');
    ServeKeeps(t, size, MapGrant(base, n));
  }

  lemma MediumFitsSegment(size: nat)
    requires size <= MEDIUM_MAX
    ensures RoundedTotal(size + HEADER_SIZE) <= SEGMENT_SIZE
  {
    RoundedTotalExact(size + HEADER_SIZE);
  }

  lemma HeapRefused(t: State, size: nat, mapped: map<int, nat>)
    requires Housed(t, mapped) && SMALL_MAX < size <= MEDIUM_MAX && NoFit(t.heap, RoundedTotal(size + HEADER_SIZE))
    ensures Answered(t, t, size, Refused, HeapGrant(0))
  {}

  lemma LargeRefused(t: State, size: nat, mapped: map<int, nat>)
    requires Housed(t, mapped) && size > MEDIUM_MAX
    ensures Answered(t, t, size, Refused, MapGrant(0, 0))
  {}

  // --------------------------------------------------------------------------- freeing

  /** The tiers went from t to t' taking r back. */
  ghost predicate TookBack(t: State, t': State, r: Raw, a: Taken, via: Via) {
    TakenOK(t, r, a, via) && HandedBack(t, t', r, via)
  }

  /** A small block, through a cache or not. */
  lemma SmallTaken(t: State, r: Raw, via: Via, next: map<int, int>, a: Taken, mapped: map<int, nat>)
    requires Housed(t, mapped) && CanFree(t, r, via) && r.owner.Small? && a.capacity == r.hi - r.lo
    requires var free := Release(t, r, via).small[r.owner.class_].shard.free;
             forall m :: a.writes(m) == LinkImage(m, next, free)
    ensures Housed(Release(t, r, via), mapped) && TookBack(t, Release(t, r, via), r, a, via)
  {
    var t' := Release(t, r, via);
    OpenHoused(t, mapped);
    ReleaseKeeps(t, r, via);
    SameRegions(t, r, via);
    assert mapped - {} == mapped;
    OwnedShrinks(t, t', mapped, mapped, {});
    SmallTakes(t, t', r, via, next, a);
  }

  lemma SameRegions(t: State, r: Raw, via: Via)
    requires IsRaw(t, r) && r.owner.Small?
    ensures forall g :: IsRegion(Release(t, r, via), g) ==> IsRegion(t, g)
  {}

  lemma SmallTakes(t: State, t': State, r: Raw, via: Via, next: map<int, int>, a: Taken)
    requires CanFree(t, r, via) && r.owner.Small? && t' == Release(t, r, via) && TiersOK(t') && a.capacity == r.hi - r.lo
    requires forall m :: a.writes(m) == LinkImage(m, next, t'.small[r.owner.class_].shard.free)
    ensures TakenOK(t, r, a, via)
  {
    var c := r.owner.class_;
    assert ClassOK(t'.small[c], Stride(c));
    forall m: Raws.Memory
      ensures Quiet(t, t', m, a.writes(m))
    {
      LinksQuiet(t, c, t'.small[c], next, m);
    }
  }

  /** What deallocate of the segment heap promises: the layout, the mappings and the words
      written. */
  ghost predicate HeapFreed(l: Layout, l': Layout, b: int, mem: Mem, mem': Mem,
                            mapped: map<int, nat>, mapped': map<int, nat>)
  {
    && b in l.blocks && l.blocks[b].size > 0 && l' == FreeAt(l, b)
    && SegmentGone(l, l', b, mapped, mapped')
    && OnlyMeta(mem, mem', l.blocks.Keys, FreedNodes(l, b))
  }

  /** If a segment went as block b was freed, that of b did, back to the system. */
  ghost predicate SegmentGone(l: Layout, l': Layout, b: int, mapped: map<int, nat>, mapped': map<int, nat>)
    requires b in l.blocks
  {
    mapped' == if l'.segs == l.segs then mapped else mapped - {l.blocks[b].home}
  }

  /** A block of the segment heap; its segment may go back to the system. */
  lemma HeapTaken(t: State, r: Raw, via: Via, l': Layout, mem: Mem, mem': Mem, a: Taken,
                  mapped: map<int, nat>, mapped': map<int, nat>)
    requires Housed(t, mapped) && MappedOK(mapped') && IsRaw(t, r) && r.owner.Medium?
    requires HeapFreed(t.heap, l', r.lo - BLOCK_HEADER_SIZE, mem, mem', mapped, mapped') == true
    requires a.capacity == r.hi - r.lo && forall m :: a.writes(m) == HeapImage(m, mem, mem', l'.blocks)
    ensures Housed(t.(heap := l'), mapped') && TookBack(t, t.(heap := l'), r, a, via)
  {
    var b, t' := r.lo - BLOCK_HEADER_SIZE, Release(t, r, via);
    OpenHoused(t, mapped);
    ReleaseMedium(t, r, via);
    ReleaseKeeps(t, r, via);
    SegmentsLeft(t, b, l', mapped);
    OwnedShrinks(t, t', mapped, mapped', if l'.segs == t.heap.segs then {} else {t.heap.blocks[b].home});
    forall m: Raws.Memory
      ensures Quiet(t, t', m, a.writes(m))
    {
      HeapFreeQuiet(t, r, via, mem, mem', m);
    }
  }

  /** What the tier does to the memory of a medium block that it takes back: the first words
      of the payload become links if the block stays a block, and are left alone if not. */
  ghost predicate MediumFreed(a: Taken, l: Layout, l': Layout, payload: int, mem: Mem, mem': Mem) {
    forall key {:trigger Opened(mem', key)} :: Opened(mem', key) ==>
      MediumLeft(a, l, l', payload - BLOCK_HEADER_SIZE, mem, mem')
  }

  ghost predicate MediumLeft(a: Taken, l: Layout, l': Layout, b: int, mem: Mem, mem': Mem) {
    && b in l.blocks && l.blocks[b].size > 0 && l' == FreeAt(l, b)
    && (forall m :: a.writes(m) == HeapImage(m, mem, mem', l'.blocks))
    && (if b in l'.blocks then l'.blocks[b].free && NodeLinks(mem', l'.blocks, b)
        else Untouched(mem, mem', b + BLOCK_HEADER_SIZE, b + l.blocks[b].size))
  }

  lemma MediumFreedAs(a: Taken, l: Layout, l': Layout, b: int, mem: Mem, mem': Mem, heads: seq<nat>, chains: seq<seq<int>>,
                      mapped: map<int, nat>, mapped': map<int, nat>)
    requires HeapOK(l) && IsLive(l, b) && HeapFreed(l, l', b, mem, mem', mapped, mapped') == true
    requires Agree(mem', heads, chains, l'.blocks) == true
    requires forall m :: a.writes(m) == HeapImage(m, mem, mem', l'.blocks)
    ensures MediumFreed(a, l, l', b + BLOCK_HEADER_SIZE, mem, mem') == true
  {
    OpenHeap(l);
    assert Opened(l, 0);
    if b in l'.blocks {
      FreedIsFree(l, b);
      FreeHasLinks(mem', heads, chains, l'.blocks, b);
    } else {
      SwallowedKept(l, b, mem, mem');
    }
  }

  lemma SegmentsLeft(t: State, b: int, l': Layout, mapped: map<int, nat>)
    requires Lodged(t, mapped) && IsLive(t.heap, b) && t.heap.blocks[b].size > 0 && l' == FreeAt(t.heap, b)
    ensures mapped - {} == mapped
    ensures forall g :: IsRegion(t.(heap := l'), g) ==>
              IsRegion(t, g) && (l'.segs == t.heap.segs || g.base != t.heap.blocks[b].home)
  {
    var home := t.heap.blocks[b].home;
    OpenHeap(t.heap);
    SegmentsShrink(t.heap, b);
    HomeErased(t.heap, b);
    forall g | IsRegion(t.(heap := l'), g)
      ensures IsRegion(t, g) && (l'.segs == t.heap.segs || g.base != home)
    {
      assert !Clash(t, g, Region(Medium, home, SEGMENT_SIZE));
    }
  }

  lemma HomeErased(l: Layout, b: int)
    requires WellFormed(l) && IsLive(l, b) && l.blocks[b].size > 0
    ensures l.blocks[b].home in l.segs
    ensures FreeAt(l, b).segs == l.segs || l.blocks[b].home !in FreeAt(l, b).segs
  {
    assert Opened(l, 0);
    var c := MergeStart(l.blocks, b);
    FreeRange(l.blocks, b);
    if FreeAt(l, b).segs != l.segs {
      EraseMembers(l.segs, c);
    }
  }

  /** A mapping of its own. */
  lemma LargeTaken(t: State, r: Raw, via: Via, a: Taken, mapped: map<int, nat>)
    requires Housed(t, mapped) && IsRaw(t, r) && r.owner.Large? && a.capacity == r.hi - r.lo
    requires forall m :: a.writes(m) == m
    ensures var t' := t.(large := t.large - {r.lo});
            Housed(t', mapped - {r.lo - LARGE_OFFSET}) && TookBack(t, t', r, a, via)
  {
    var t', base := Release(t, r, via), r.lo - LARGE_OFFSET;
    OpenHoused(t, mapped);
    ReleaseKeeps(t, r, via);
    assert IsRegion(t, Region(Large, base, t.large[r.lo]));
    forall g | IsRegion(t', g)
      ensures IsRegion(t, g) && g.base != base
    {
      assert !Clash(t, g, Region(Large, base, t.large[r.lo]));
    }
    OwnedShrinks(t, t', mapped, mapped - {base}, {base});
  }

  // ---------------------------------------------------------------------------- threads

  /** The tiers went from t to t' by a step of a thread. */
  ghost predicate Stepped(t: State, t': State, c: nat, step: Step, writes: Raws.Memory -> Raws.Memory) {
    MoveOK(t, c, step, writes) && ThreadedTo(t, t', c, step)
  }

  lemma ThreadHoused(t: State, c: nat, step: Step, mapped: map<int, nat>)
    requires Housed(t, mapped) && CanMove(t, c, step)
    ensures Housed(Threaded(t, c, step), mapped) && ClassOK(Threaded(t, c, step).small[c], Stride(c))
  {
    var t' := Threaded(t, c, step);
    OpenHoused(t, mapped);
    ThreadedKeeps(t, c, step);
    assert mapped - {} == mapped;
    OwnedShrinks(t, t', mapped, mapped, {});
  }

  /** A cache that appears writes nothing. */
  lemma ArriveStepped(t: State, c: nat, tid: Tid, writes: Raws.Memory -> Raws.Memory, mapped: map<int, nat>)
    requires Housed(t, mapped) && c < CLASS_COUNT && tid !in t.small[c].caches && forall m :: writes(m) == m
    ensures CanMove(t, c, Arrive(tid)) && Housed(Threaded(t, c, Arrive(tid)), mapped)
    ensures Stepped(t, Threaded(t, c, Arrive(tid)), c, Arrive(tid), writes)
  {
    StrideBounds(c);
    ThreadHoused(t, c, Arrive(tid), mapped);
  }

  /** One that is flushed writes links. */
  lemma ExitStepped(t: State, c: nat, tid: Tid, next: map<int, int>, writes: Raws.Memory -> Raws.Memory, mapped: map<int, nat>)
    requires Housed(t, mapped) && c < CLASS_COUNT && tid in t.small[c].caches
    requires var free := Returned(t.small[c].shard, t.small[c].caches[tid]).free;
             forall m :: writes(m) == LinkImage(m, next, free)
    ensures CanMove(t, c, Exit(tid)) && Housed(Threaded(t, c, Exit(tid)), mapped)
    ensures Stepped(t, Threaded(t, c, Exit(tid)), c, Exit(tid), writes)
  {
    StrideBounds(c);
    ThreadHoused(t, c, Exit(tid), mapped);
    var t' := Threaded(t, c, Exit(tid));
    forall m: Raws.Memory
      ensures Quiet(t, t', m, writes(m))
    {
      LinksQuiet(t, c, t'.small[c], next, m);
    }
  }

  lemma LargeIsMapped(t: State, r: Raw, mapped: map<int, nat>)
    requires Housed(t, mapped) && IsRaw(t, r) && r.owner.Large?
    ensures r.lo - LARGE_OFFSET in mapped && t.large[r.lo] >= LARGE_OFFSET
    ensures r.lo - LARGE_OFFSET !in t.heap.segs
  {
    OpenHoused(t, mapped);
    var g, h := Region(Large, r.lo - LARGE_OFFSET, t.large[r.lo]), Region(Medium, r.lo - LARGE_OFFSET, SEGMENT_SIZE);
    assert IsRegion(t, g) && !Clash(t, g, h);
  }
}
