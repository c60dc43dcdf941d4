/** The three tiers together: which raw blocks they have handed out, and why those never
    overlap. */
module Tiers {
  import opened Folding
  import opened Tags
  import opened SystemMemory
  import opened SizeClasses
  import opened Shards
  import opened PoolSystem
  import opened Pools
  import opened SegmentLayout
  import opened SegmentSteps

  const MEDIUM_MAX: nat := 0x4_0000
  const LARGE_OFFSET: nat := 16

  datatype Owner = Small(class_: nat) | Medium | Large

  /** A mapping of the system. */
  datatype Region = Region(owner: Owner, base: int, size: nat)

  /** A block as rawAllocate sees it: the universal header is at lo, the block ends at hi. */
  datatype Raw = Raw(owner: Owner, lo: int, hi: int)

  /** The pools by class, the segment heap, and the large mappings by payload address. */
  datatype State = State(small: seq<System>, heap: Layout, large: map<int, nat>)

  // ------------------------------------------------------------- regions and raw blocks

  predicate IsRegion(t: State, g: Region) {
    match g.owner
    case Small(c) => c < |t.small| && g.base in t.small[c].shard.runs && g.size == RUN_SIZE
    case Medium => g.base in t.heap.segs && g.size == SEGMENT_SIZE
    case Large => g.base + LARGE_OFFSET in t.large && g.size == t.large[g.base + LARGE_OFFSET]
  }

  predicate IsRaw(t: State, r: Raw) {
    match r.owner
    case Small(c) => c < |t.small| && c < CLASS_COUNT && r.lo in t.small[c].live && r.hi == r.lo + Stride(c)
    case Medium =>
      && IsLive(t.heap, r.lo - BLOCK_HEADER_SIZE)
      && r.hi == r.lo - BLOCK_HEADER_SIZE + t.heap.blocks[r.lo - BLOCK_HEADER_SIZE].size
    case Large => r.lo in t.large && r.hi == r.lo - LARGE_OFFSET + t.large[r.lo]
  }

  ghost predicate ClassOK(s: System, stride: nat) {
    exists loc :: Placed(s, loc, stride)
  }

  /** Mappings are aligned, within the address space and, whoever holds them, disjoint. */
  ghost predicate RegionsOK(t: State) {
    && (forall g :: IsRegion(t, g) ==> 0 < g.base && g.base % 16 == 0 && g.base + g.size <= ADDRESS_LIMIT)
    && (forall g, h :: IsRegion(t, g) && IsRegion(t, h) && g != h ==>
          !Overlap(g.base, g.base + g.size, h.base, h.base + h.size))
  }

  /** The heap is well formed. */
  ghost predicate HeapOK(l: Layout) {
    forall key {:trigger Opened(l, key)} :: Opened(l, key) ==> WellFormed(l)
  }

  lemma OpenHeap(l: Layout)
    requires HeapOK(l)
    ensures WellFormed(l)
  {
    assert Opened(l, 0);
  }

  lemma CloseHeap(l: Layout)
    requires WellFormed(l)
    ensures HeapOK(l)
  {}

  ghost predicate TiersOK(t: State) {
    && |t.small| == CLASS_COUNT
    && (forall c :: 0 <= c < CLASS_COUNT ==> ClassOK(t.small[c], Stride(c)))
    && HeapOK(t.heap)
    && (forall p :: p in t.large ==> t.large[p] >= 48)
    && RegionsOK(t)
  }

  // -------------------------------------------------------------- where raw blocks lie

  ghost predicate Inside(r: Raw, g: Region) {
    g.owner == r.owner && g.base <= r.lo && r.hi <= g.base + g.size && r.lo + 32 <= r.hi && r.lo % 16 == 0
  }

  lemma SmallInside(t: State, r: Raw) returns (g: Region)
    requires TiersOK(t) && IsRaw(t, r) && r.owner.Small?
    ensures IsRegion(t, g) && Inside(r, g)
  {
    var c := r.owner.class_;
    var s, stride := t.small[c], Stride(c);
    assert ClassOK(s, stride);
    var loc :| Placed(s, loc, stride);
    StrideBounds(c);
    var cell := CellOf(s, loc, stride, r.lo);
    CarvedInRun(s.shard, stride, cell);
    g := Region(r.owner, s.shard.runs[cell.run], RUN_SIZE);
    assert IsRegion(t, g);
    SlotAligned(s.shard, stride, cell);
  }

  lemma CellOf(s: System, loc: map<int, Place>, stride: nat, b: int) returns (cell: Cell)
    requires Placed(s, loc, stride) && b in s.live
    ensures cell in s.shard.carved && cell.addr == b
  {
    assert b in Addrs(s.shard);
    cell :| cell in s.shard.carved && cell.addr == b;
  }

  lemma SlotAligned(s: Shard, stride: nat, c: Cell)
    requires ShardOK(s, stride) && c in s.carved && stride % 16 == 0 && c.run < |s.runs| && s.runs[c.run] % 16 == 0
    ensures c.addr % 16 == 0
  {
    var j :| 0 <= j < |s.carved| && s.carved[j] == c;
    assert CellOK(s, stride, s.carved[j]);
    AlignedSum(s.runs[c.run], c.slot, stride);
  }

  lemma AlignedSum(base: int, k: nat, stride: nat)
    requires base % 16 == 0 && stride % 16 == 0
    ensures (base + k * stride) % 16 == 0
  {
    MultipleOf16(k, stride);
  }

  lemma MultipleOf16(k: nat, stride: nat)
    requires stride % 16 == 0
    ensures k * stride % 16 == 0
  {
    var q := stride / 16;
    assert k * stride == (k * q) * 16 by { assert k * (q * 16) == (k * q) * 16; }
  }

  lemma MediumInside(t: State, r: Raw) returns (g: Region)
    requires TiersOK(t) && IsRaw(t, r) && r.owner.Medium?
    ensures IsRegion(t, g) && Inside(r, g)
  {
    g := BlockRegion(t.heap, r.lo - BLOCK_HEADER_SIZE);
    assert IsRegion(t, g);
  }

  /** The segment of a block of the heap. */
  lemma BlockRegion(l: Layout, b: int) returns (g: Region)
    requires HeapOK(l) && b in l.blocks
    ensures g.owner == Medium && g.base in l.segs && g.size == SEGMENT_SIZE && g.base == l.blocks[b].home <= b
    ensures MIN_BLOCK_SIZE <= l.blocks[b].size && b + l.blocks[b].size <= g.base + g.size
    ensures g.base % 16 == 0 ==> b % 16 == 0
  {
    OpenHeap(l);
    assert Opened(l, 0);
    var k := l.blocks[b];
    g := Region(Medium, k.home, SEGMENT_SIZE);
    if b != k.home {
      assert l.blocks[k.home].home == k.home;
      RangeSize(l.blocks, k.home, b);
    }
  }

  lemma RawInside(t: State, r: Raw) returns (g: Region)
    requires TiersOK(t) && IsRaw(t, r)
    ensures IsRegion(t, g) && Inside(r, g)
  {
    match r.owner {
      case Small(c) => g := SmallInside(t, r);
      case Medium => g := MediumInside(t, r);
      case Large =>
        g := Region(Large, r.lo - LARGE_OFFSET, t.large[r.lo]);
        assert IsRegion(t, g);
    }
  }

  /** Two raw blocks the tiers have handed out never overlap, whichever tiers they are
      from. */
  lemma RawsApart(t: State, r: Raw, q: Raw)
    requires TiersOK(t) && IsRaw(t, r) && IsRaw(t, q) && r != q
    ensures !Overlap(r.lo, r.hi, q.lo, q.hi)
  {
    if r.owner.Large? && q.owner.Large? {
      LargeApart(t, r, q);
    } else {
      var g := RawInside(t, r);
      var h := RawInside(t, q);
      if r.owner == q.owner {
        match r.owner {
          case Small(c) => SmallApart(t.small[c], Stride(c), r.lo, q.lo);
          case Medium => BlocksApart(t.heap, r.lo - BLOCK_HEADER_SIZE, q.lo - BLOCK_HEADER_SIZE);
        }
      }
    }
  }

  lemma BlocksApart(l: Layout, b: int, c: int)
    requires HeapOK(l) && b in l.blocks && c in l.blocks && b != c
    ensures b + l.blocks[b].size <= c || c + l.blocks[c].size <= b
  {
    OpenHeap(l);
    assert Opened(l, 0);
    Around(l.blocks, b);
  }

  lemma LargeApart(t: State, r: Raw, q: Raw)
    requires RegionsOK(t) && IsRaw(t, r) && IsRaw(t, q) && r != q && r.owner.Large? && q.owner.Large?
    ensures !Overlap(r.lo, r.hi, q.lo, q.hi)
  {
    var g := Region(Large, r.lo - LARGE_OFFSET, t.large[r.lo]);
    var h := Region(Large, q.lo - LARGE_OFFSET, t.large[q.lo]);
    assert IsRegion(t, g) && IsRegion(t, h);
  }

  lemma SmallApart(s: System, stride: nat, a: int, b: int)
    requires ClassOK(s, stride) && a in s.live && b in s.live && a != b
    ensures a + stride <= b || b + stride <= a
  {
    var loc :| Placed(s, loc, stride);
    var x := CellOf(s, loc, stride, a);
    var y := CellOf(s, loc, stride, b);
    CellsApart(s.shard, stride, x, y);
  }

  lemma CellsApart(s: Shard, stride: nat, x: Cell, y: Cell)
    requires ShardOK(s, stride) && x in s.carved && y in s.carved && x != y
    ensures x.addr + stride <= y.addr || y.addr + stride <= x.addr
  {
    var i :| 0 <= i < |s.carved| && s.carved[i] == x;
    var j :| 0 <= j < |s.carved| && s.carved[j] == y;
    if i < j { CarvedApart(s, stride, i, j); } else { CarvedApart(s, stride, j, i); }
  }

  // ------------------------------------------------------------------------ allocation

  /** How a tier serves a request: through the cache of thread t or straight from the
      pool, with what the system answers on the way; by a block of the segment heap; or by
      a mapping of its own. */
  datatype Grant =
    | CacheGrant(t: Tid, answers: seq<int>)
    | PoolGrant(answer: int)
    | HeapGrant(block: int)
    | MapGrant(base: int, size: nat)

  ghost predicate SmallAllowed(s: System, stride: nat, g: Grant)
    requires stride > 0
  {
    match g
    case CacheGrant(t, answers) =>
      && t in s.caches && (s.caches[t] == [] ==> AnswersOK(s.shard, stride, BATCH_SIZE, answers))
      && CacheAllocate(s.shard, s.caches[t], stride, answers).2 != 0
    case PoolGrant(answer) =>
      (answer != 0 ==> FreshRun(s.shard.runs, answer)) && Take(s.shard, stride, answer).1 != 0
    case _ => false
  }

  /** The pool after serving, and the block. */
  function SmallServe(s: System, stride: nat, g: Grant): (System, int)
    requires stride > 0
  {
    match g
    case CacheGrant(t, answers) =>
      if t !in s.caches then (s, 0)
      else
        var (shard, q, b) := CacheAllocate(s.shard, s.caches[t], stride, answers);
        (System(shard, s.caches[t := q], s.live + {b}), b)
    case PoolGrant(answer) =>
      var (shard, b) := Take(s.shard, stride, answer);
      (s.(shard := shard, live := s.live + {b}), b)
    case _ => (s, 0)
  }

  /** Serving with g leads the class from s to s' and hands out the block; brought out where
      it is worked on. */
  ghost predicate SmallServes(s: System, stride: nat, g: Grant, s': System, block: int) {
    forall key {:trigger Opened(s', key)} :: Opened(s', key) ==>
      stride > 0 && (s', block) == SmallServe(s, stride, g) && SmallAllowed(s, stride, g)
  }

  /** The segment heap after giving block b, from a new segment if nothing fits. */
  function HeapServe(l: Layout, b: int, total: nat): Layout {
    if FreeFit(l, b, total) then AllocAt(l, b, total)
    else if total <= SEGMENT_SIZE then AllocAt(AddSegment(l, b), b, total)
    else l
  }

  ghost predicate HeapAllowed(l: Layout, b: int, total: nat) {
    && Request(total)
    && (FreeFit(l, b, total) || (FreshBase(l, b) && forall x :: !FreeFit(l, x, total)))
  }

  /** Every contract-abiding answer of the segment heap is one of these. */
  lemma GrantedIsAllowed(l: Layout, l': Layout, b: int, total: nat)
    requires Request(total) && Granted(l, l', b, total)
    ensures HeapAllowed(l, b, total) && l' == HeapServe(l, b, total)
  {}

  function Serve(t: State, size: nat, g: Grant): State
    requires |t.small| == CLASS_COUNT
  {
    if size <= SMALL_MAX then
      var c := ClassIndex(size);
      StrideBounds(c);
      t.(small := t.small[c := SmallServe(t.small[c], Stride(c), g).0])
    else if size <= MEDIUM_MAX then
      if g.HeapGrant? then t.(heap := HeapServe(t.heap, g.block, RoundedTotal(size + HEADER_SIZE))) else t
    else
      if g.MapGrant? then t.(large := t.large[g.base + LARGE_OFFSET := g.size]) else t
  }

  /** The raw block that the grant hands out. */
  function Given(t: State, size: nat, g: Grant): Raw
    requires |t.small| == CLASS_COUNT
  {
    if size <= SMALL_MAX then
      var c := ClassIndex(size);
      StrideBounds(c);
      var b := SmallServe(t.small[c], Stride(c), g).1;
      Raw(Small(c), b, b + Stride(c))
    else if size <= MEDIUM_MAX then
      var b := if g.HeapGrant? then g.block else 0;
      var l := HeapServe(t.heap, b, RoundedTotal(size + HEADER_SIZE));
      Raw(Medium, b + BLOCK_HEADER_SIZE, if b in l.blocks then b + l.blocks[b].size else b)
    else
      var (base, n) := if g.MapGrant? then (g.base, g.size) else (0, 0);
      Raw(Large, base + LARGE_OFFSET, base + n)
  }

  /** Whatever the system has newly mapped is aligned and away from every other mapping. */
  ghost predicate FreshMappings(t: State, t': State) {
    forall g :: IsRegion(t', g) && !IsRegion(t, g) ==>
      && 0 < g.base && g.base % 16 == 0 && g.base + g.size <= ADDRESS_LIMIT
      && forall h :: IsRegion(t', h) && h != g ==> !Overlap(g.base, g.base + g.size, h.base, h.base + h.size)
  }

  ghost predicate Allowed(t: State, size: nat, g: Grant)
    requires |t.small| == CLASS_COUNT
  {
    && (if size <= SMALL_MAX then
          var c := ClassIndex(size);
          StrideBounds(c);
          SmallAllowed(t.small[c], Stride(c), g)
        else if size <= MEDIUM_MAX then
          g.HeapGrant? && HeapAllowed(t.heap, g.block, RoundedTotal(size + HEADER_SIZE))
        else
          g.MapGrant? && g.size >= size + HEADER_SIZE + LARGE_OFFSET && g.base + LARGE_OFFSET !in t.large)
    && FreshMappings(t, Serve(t, size, g))
  }

  /** The tier has nothing left for the request: no cached block, no block on the free list
      and no room in the last run; no free block of the segment heap that fits. A mapping of
      its own can always be refused. */
  ghost predicate Starved(t: State, size: nat, g: Grant)
    requires |t.small| == CLASS_COUNT
  {
    if size <= SMALL_MAX then
      var c := ClassIndex(size);
      StrideBounds(c);
      && t.small[c].shard.free == [] && Exhausted(t.small[c].shard, Stride(c))
      && (g.CacheGrant? ==> g.t in t.small[c].caches && t.small[c].caches[g.t] == [])
    else if size <= MEDIUM_MAX then
      NoFit(t.heap, RoundedTotal(size + HEADER_SIZE))
    else true
  }

  ghost predicate NoFit(l: Layout, total: nat) {
    forall x :: !FreeFit(l, x, total)
  }

  /** t' has handed out r and otherwise exactly what t has. */
  ghost predicate Gained(t: State, t': State, r: Raw) {
    !IsRaw(t, r) && forall q :: IsRaw(t', q) <==> IsRaw(t, q) || q == r
  }

  lemma RegionsGrow(t: State, t': State)
    requires RegionsOK(t) && FreshMappings(t, t')
    ensures RegionsOK(t')
  {
    forall g, h | IsRegion(t', g) && IsRegion(t', h) && g != h
      ensures !Overlap(g.base, g.base + g.size, h.base, h.base + h.size)
    {
      if IsRegion(t, g) && IsRegion(t, h) {
      } else if !IsRegion(t, g) {
      } else {
        assert !Overlap(h.base, h.base + h.size, g.base, g.base + g.size);
      }
    }
  }

  lemma SmallGains(s: System, stride: nat, g: Grant)
    requires StrideOK(stride) && ClassOK(s, stride) && SmallAllowed(s, stride, g)
    ensures var (s', b) := SmallServe(s, stride, g);
            ClassOK(s', stride) && b !in s.live && s'.live == s.live + {b}
  {
    var loc :| Placed(s, loc, stride);
    match g {
      case CacheGrant(t, answers) => CacheGains(s, loc, stride, t, answers);
      case PoolGrant(answer) =>
        TakeMoves(s.shard, loc, stride, answer, WithClient);
        var loc' := PoolTakeKeeps(s, loc, stride, answer);
        assert Placed(SmallServe(s, stride, g).0, loc', stride);
    }
  }

  lemma CacheGains(s: System, loc: map<int, Place>, stride: nat, t: Tid, answers: seq<int>)
    requires Placed(s, loc, stride) && SmallAllowed(s, stride, CacheGrant(t, answers))
    ensures var (s', b) := SmallServe(s, stride, CacheGrant(t, answers));
            ClassOK(s', stride) && b !in s.live && s'.live == s.live + {b}
  {
    AllocateIsRun(s, loc, stride, t, answers);
    var run := AllocateRun(s.shard, s.caches[t], stride, t, answers);
    var loc' := RunKeepsPlaces(s, loc, stride, run);
    var s', b := SmallServe(s, stride, CacheGrant(t, answers)).0, SmallServe(s, stride, CacheGrant(t, answers)).1;
    assert Placed(s', loc', stride);
    CachedNotLive(s, loc, stride, t, answers);
  }

  lemma CachedNotLive(s: System, loc: map<int, Place>, stride: nat, t: Tid, answers: seq<int>)
    requires Placed(s, loc, stride) && SmallAllowed(s, stride, CacheGrant(t, answers))
    ensures CacheAllocate(s.shard, s.caches[t], stride, answers).2 !in s.live
  {
    var q := s.caches[t];
    if q != [] {
      assert CachePlaced(q, loc, t) && q[|q| - 1] in q;
    } else {
      BatchMoves(s.shard, loc, stride, BATCH_SIZE, answers, InCache(t));
      var (shard, bs) := TakeBatch(s.shard, stride, BATCH_SIZE, answers);
      assert bs[|bs| - 1] in bs;
    }
  }

  lemma SmallServeKeeps(t: State, size: nat, g: Grant)
    requires TiersOK(t) && Allowed(t, size, g) && size <= SMALL_MAX
    ensures TiersOK(Serve(t, size, g)) && Gained(t, Serve(t, size, g), Given(t, size, g))
  {
    var c := ClassIndex(size);
    StrideFits(c);
    var (s', b) := SmallServe(t.small[c], Stride(c), g);
    assert ClassOK(t.small[c], Stride(c));
    SmallGains(t.small[c], Stride(c), g);
    RegionsGrow(t, Serve(t, size, g));
    ClassReplaced(t, c, s');
    ClassGained(t, c, s', b);
  }

  lemma ClassReplaced(t: State, c: nat, s': System)
    requires TiersOK(t) && c < CLASS_COUNT && ClassOK(s', Stride(c))
    requires RegionsOK(t.(small := t.small[c := s']))
    ensures TiersOK(t.(small := t.small[c := s']))
  {
    forall d | 0 <= d < CLASS_COUNT
      ensures ClassOK(t.small[c := s'][d], Stride(d))
    {
      assert ClassOK(t.small[d], Stride(d));
    }
  }

  lemma ClassGained(t: State, c: nat, s': System, b: int)
    requires c < CLASS_COUNT == |t.small| && b !in t.small[c].live && s'.live == t.small[c].live + {b}
    ensures Gained(t, t.(small := t.small[c := s']), Raw(Small(c), b, b + Stride(c)))
  {}

  lemma ClassLost(t: State, c: nat, s': System, b: int)
    requires c < CLASS_COUNT == |t.small| && b in t.small[c].live && s'.live == t.small[c].live - {b}
    ensures Lost(t, t.(small := t.small[c := s']), Raw(Small(c), b, b + Stride(c)))
  {}

  lemma StrideFits(c: nat)
    requires c < CLASS_COUNT
    ensures StrideOK(Stride(c))
  {
    StrideBounds(c);
    FitsRun(Stride(c));
  }

  lemma FitsRun(stride: nat)
    requires 0 < stride <= RUN_SIZE
    ensures PerRun(stride) > 0
  {
    assert RUN_SIZE == PerRun(stride) * stride + RUN_SIZE % stride;
  }

  lemma HeapServeKeeps(l: Layout, b: int, total: nat)
    requires HeapOK(l) && HeapAllowed(l, b, total) && total % 16 == 0
    ensures var l' := HeapServe(l, b, total);
            && HeapOK(l') && b !in Live(l) && b in l'.blocks && total <= l'.blocks[b].size <= total + 32
            && Live(l') == Live(l)[b := Held(l'.blocks[b].size, l'.blocks[b].home)]
  {
    OpenHeap(l);
    if FreeFit(l, b, total) {
      AllocKeepsWellFormed(l, b, total);
    } else {
      AllocFreshKeepsWellFormed(l, b, total);
    }
    var l' := HeapServe(l, b, total);
    assert Opened(l', 0);
    assert Granular(l'.blocks[b]);
    CloseHeap(l');
  }

  lemma MediumGains(t: State, l': Layout, b: int, h: Held)
    requires b !in Live(t.heap) && Live(l') == Live(t.heap)[b := h]
    ensures var r := Raw(Medium, b + BLOCK_HEADER_SIZE, b + h.size);
            Gained(t, t.(heap := l'), r)
  {
    var r, t' := Raw(Medium, b + BLOCK_HEADER_SIZE, b + h.size), t.(heap := l');
    forall q
      ensures IsRaw(t', q) <==> IsRaw(t, q) || q == r
    {
      if q.owner.Medium? {
        RawFromLive(t, q);
        RawFromLive(t', q);
      }
    }
    RawFromLive(t, r);
  }

  lemma RawFromLive(t: State, q: Raw)
    requires q.owner.Medium?
    ensures IsRaw(t, q) <==>
            q.lo - BLOCK_HEADER_SIZE in Live(t.heap) &&
            q.hi == q.lo - BLOCK_HEADER_SIZE + Live(t.heap)[q.lo - BLOCK_HEADER_SIZE].size
  {}

  /** Serving a request hands out one raw block, apart from all others, of at least the
      size asked for plus the universal header. */
  lemma ServeKeeps(t: State, size: nat, g: Grant)
    requires TiersOK(t) && Allowed(t, size, g)
    ensures TiersOK(Serve(t, size, g)) && Gained(t, Serve(t, size, g), Given(t, size, g))
    ensures var r := Given(t, size, g); r.lo + HEADER_SIZE + size <= r.hi && r.lo > 0 && r.lo % 16 == 0
    ensures Given(t, size, g).hi <= ADDRESS_LIMIT
  {
    if size <= SMALL_MAX {
      SmallServeKeeps(t, size, g);
      StrideCovers(size);
    } else if size <= MEDIUM_MAX {
      MediumServeKeeps(t, size, g);
    } else {
      RegionsGrow(t, Serve(t, size, g));
    }
    var region := RawInside(Serve(t, size, g), Given(t, size, g));
  }

  /** An unshimmed medium block is over-provisioned by at most 47 bytes. */
  lemma MediumServeKeeps(t: State, size: nat, g: Grant)
    requires TiersOK(t) && Allowed(t, size, g) && SMALL_MAX < size <= MEDIUM_MAX
    ensures TiersOK(Serve(t, size, g)) && Gained(t, Serve(t, size, g), Given(t, size, g))
    ensures var r := Given(t, size, g); HEADER_SIZE + size <= r.hi - r.lo <= HEADER_SIZE + size + 47
  {
    RoundedTotalExact(size + HEADER_SIZE);
    ServeMedium(t, size, g);
    RegionsGrow(t, Serve(t, size, g));
    GrantedHeap(t, g.block, RoundedTotal(size + HEADER_SIZE));
  }

  lemma GrantedHeap(t: State, b: int, total: nat)
    requires TiersOK(t) && HeapAllowed(t.heap, b, total) && total % 16 == 0
    requires RegionsOK(t.(heap := HeapServe(t.heap, b, total)))
    ensures var l' := HeapServe(t.heap, b, total);
            && b in l'.blocks && total <= l'.blocks[b].size <= total + 32 && TiersOK(t.(heap := l'))
            && Gained(t, t.(heap := l'), Raw(Medium, b + BLOCK_HEADER_SIZE, b + l'.blocks[b].size))
  {
    HeapServeKeeps(t.heap, b, total);
    ServedHeap(t, HeapServe(t.heap, b, total), b);
  }

  lemma ServeMedium(t: State, size: nat, g: Grant)
    requires |t.small| == CLASS_COUNT && SMALL_MAX < size <= MEDIUM_MAX && g.HeapGrant?
    ensures var l' := HeapServe(t.heap, g.block, RoundedTotal(size + HEADER_SIZE));
            && Serve(t, size, g) == t.(heap := l')
            && (g.block in l'.blocks ==>
                  Given(t, size, g) == Raw(Medium, g.block + BLOCK_HEADER_SIZE, g.block + l'.blocks[g.block].size))
  {}

  lemma ServedHeap(t: State, l': Layout, b: int)
    requires TiersOK(t) && HeapOK(l') && RegionsOK(t.(heap := l')) && b in l'.blocks
    requires b !in Live(t.heap) && Live(l') == Live(t.heap)[b := Held(l'.blocks[b].size, l'.blocks[b].home)]
    ensures TiersOK(t.(heap := l'))
    ensures Gained(t, t.(heap := l'), Raw(Medium, b + BLOCK_HEADER_SIZE, b + l'.blocks[b].size))
  {
    var k := l'.blocks[b];
    MediumGains(t, l', b, Held(k.size, k.home));
    forall c | 0 <= c < CLASS_COUNT
      ensures ClassOK(t.small[c], Stride(c))
    {}
  }

  // --------------------------------------------------------------------------- freeing

  datatype Via = ViaCache(t: Tid) | ViaPool

  ghost predicate CanFree(t: State, r: Raw, via: Via) {
    && IsRaw(t, r)
    && (r.owner.Small? && via.ViaCache? ==> via.t in t.small[r.owner.class_].caches)
  }

  function SmallFree(s: System, b: int, via: Via): System {
    if via.ViaCache? && via.t in s.caches then
      var (shard, q) := CacheFree(s.shard, s.caches[via.t], b);
      System(shard, s.caches[via.t := q], s.live - {b})
    else
      s.(shard := Returned(s.shard, [b]), live := s.live - {b})
  }

  function Release(t: State, r: Raw, via: Via): State
    requires IsRaw(t, r)
  {
    match r.owner
    case Small(c) => t.(small := t.small[c := SmallFree(t.small[c], r.lo, via)])
    case Medium =>
      var b := r.lo - BLOCK_HEADER_SIZE;
      if t.heap.blocks[b].size > 0 then t.(heap := FreeAt(t.heap, b)) else t
    case Large => t.(large := t.large - {r.lo})
  }

  ghost predicate Lost(t: State, t': State, r: Raw) {
    forall q :: IsRaw(t', q) <==> IsRaw(t, q) && q != r
  }

  lemma RegionsShrink(t: State, t': State)
    requires RegionsOK(t) && forall g :: IsRegion(t', g) ==> IsRegion(t, g)
    ensures RegionsOK(t')
  {}

  lemma SmallLoses(s: System, stride: nat, b: int, via: Via)
    requires StrideOK(stride) && ClassOK(s, stride) && b in s.live
    requires via.ViaCache? ==> via.t in s.caches
    ensures ClassOK(SmallFree(s, b, via), stride) && SmallFree(s, b, via).live == s.live - {b}
    ensures SmallFree(s, b, via).shard.runs == s.shard.runs
  {
    var loc :| Placed(s, loc, stride);
    if via.ViaCache? {
      var t := via.t;
      assert CachePlaced(s.caches[t], loc, t);
      FreeIsRun(s, stride, t, b);
      var run := if |s.caches[t]| == CACHE_CAPACITY then [Flush(t)] + [Push(t, b)] else [Push(t, b)];
      var loc' := RunKeepsPlaces(s, loc, stride, run);
      assert Placed(SmallFree(s, b, via), loc', stride);
    } else {
      var loc' := PoolFreeKeeps(s, loc, stride, b);
      assert Placed(SmallFree(s, b, via), loc', stride);
    }
  }

  /** Giving a raw block back takes exactly that block out of what is handed out. */
  lemma ReleaseKeeps(t: State, r: Raw, via: Via)
    requires TiersOK(t) && CanFree(t, r, via)
    ensures TiersOK(Release(t, r, via)) && Lost(t, Release(t, r, via), r)
  {
    var t' := Release(t, r, via);
    match r.owner {
      case Small(c) => SmallReleaseKeeps(t, r, via);
      case Medium => MediumReleaseKeeps(t, r, via);
      case Large =>
        forall g | IsRegion(t', g)
          ensures IsRegion(t, g)
        {}
        RegionsShrink(t, t');
    }
  }

  lemma SmallReleaseKeeps(t: State, r: Raw, via: Via)
    requires TiersOK(t) && CanFree(t, r, via) && r.owner.Small?
    ensures TiersOK(Release(t, r, via)) && Lost(t, Release(t, r, via), r)
  {
    var c := r.owner.class_;
    StrideFits(c);
    var s' := SmallFree(t.small[c], r.lo, via);
    assert ClassOK(t.small[c], Stride(c));
    SmallLoses(t.small[c], Stride(c), r.lo, via);
    ClassRegions(t, c, s');
    ClassReplaced(t, c, s');
    ClassLost(t, c, s', r.lo);
  }

  lemma ClassRegions(t: State, c: nat, s': System)
    requires RegionsOK(t) && c < |t.small| && s'.shard.runs == t.small[c].shard.runs
    ensures RegionsOK(t.(small := t.small[c := s']))
  {
    RegionsShrink(t, t.(small := t.small[c := s']));
  }

  lemma MediumReleaseKeeps(t: State, r: Raw, via: Via)
    requires TiersOK(t) && IsRaw(t, r) && r.owner.Medium?
    ensures TiersOK(Release(t, r, via)) && Lost(t, Release(t, r, via), r)
  {
    var b := r.lo - BLOCK_HEADER_SIZE;
    FreedHeap(t.heap, b);
    ReleaseMedium(t, r, via);
    ReleasedHeap(t, r, via, FreeAt(t.heap, b));
  }

  lemma ReleaseMedium(t: State, r: Raw, via: Via)
    requires IsRaw(t, r) && r.owner.Medium? && t.heap.blocks[r.lo - BLOCK_HEADER_SIZE].size > 0
    ensures Release(t, r, via) == t.(heap := FreeAt(t.heap, r.lo - BLOCK_HEADER_SIZE))
  {}

  lemma ReleasedHeap(t: State, r: Raw, via: Via, l': Layout)
    requires TiersOK(t) && IsRaw(t, r) && r.owner.Medium?
    requires HeapOK(l') && Live(l') == Live(t.heap) - {r.lo - BLOCK_HEADER_SIZE}
    requires forall s :: s in l'.segs ==> s in t.heap.segs
    requires Release(t, r, via) == t.(heap := l')
    ensures TiersOK(Release(t, r, via)) && Lost(t, Release(t, r, via), r)
  {
    HeapReplacedLost(t, l', r);
  }

  lemma FreedHeap(l: Layout, b: int)
    requires HeapOK(l) && IsLive(l, b)
    ensures l.blocks[b].size > 0 && HeapOK(FreeAt(l, b)) && Live(FreeAt(l, b)) == Live(l) - {b}
    ensures forall s :: s in FreeAt(l, b).segs ==> s in l.segs
  {
    OpenHeap(l);
    assert Opened(l, 0);
    FreeKeepsWellFormed(l, b);
    SegmentsShrink(l, b);
    CloseHeap(FreeAt(l, b));
  }

  lemma HeapReplacedLost(t: State, l': Layout, r: Raw)
    requires TiersOK(t) && IsRaw(t, r) && r.owner.Medium?
    requires HeapOK(l') && Live(l') == Live(t.heap) - {r.lo - BLOCK_HEADER_SIZE}
    requires forall s :: s in l'.segs ==> s in t.heap.segs
    ensures TiersOK(t.(heap := l')) && Lost(t, t.(heap := l'), r)
  {
    HeapReplaced(t, l');
    MediumLost(t, l', r);
  }

  lemma HeapReplaced(t: State, l': Layout)
    requires TiersOK(t) && HeapOK(l') && forall s :: s in l'.segs ==> s in t.heap.segs
    ensures TiersOK(t.(heap := l'))
  {
    var t' := t.(heap := l');
    forall g | IsRegion(t', g)
      ensures IsRegion(t, g)
    {}
    RegionsShrink(t, t');
    forall c | 0 <= c < CLASS_COUNT
      ensures ClassOK(t'.small[c], Stride(c))
    {
      assert ClassOK(t.small[c], Stride(c));
    }
  }

  lemma MediumLost(t: State, l': Layout, r: Raw)
    requires r.owner.Medium? && Live(l') == Live(t.heap) - {r.lo - BLOCK_HEADER_SIZE} && IsRaw(t, r)
    ensures Lost(t, t.(heap := l'), r)
  {
    var t' := t.(heap := l');
    forall q: Raw
      ensures IsRaw(t', q) <==> IsRaw(t, q) && q != r
    {
      if q.owner.Medium? {
        RawFromLive(t, q);
        RawFromLive(t', q);
      }
    }
  }

  lemma SegmentsShrink(l: Layout, b: int)
    requires WellFormed(l) && IsLive(l, b) && l.blocks[b].size > 0
    ensures forall s :: s in FreeAt(l, b).segs ==> s in l.segs
  {
    assert Opened(l, 0);
    FreeRange(l.blocks, b);
    var c := MergeStart(l.blocks, b);
    assert l.blocks[c].home in l.segs;
    if l.blocks[c].home == c { EraseMembers(l.segs, c); }
  }
}
