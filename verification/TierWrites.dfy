/** The bytes the tiers write for themselves: list links, tags and nodes. None of them lies
    in a block that is handed out, nor in the header slot of one that was freed. */
module TierWrites {
  import opened Folding
  import opened SystemMemory
  import opened SizeClasses
  import opened Shards
  import opened PoolSystem
  import opened Pools
  import opened SegmentLayout
  import opened SegmentBins
  import opened SegmentSteps
  import opened Tags
  import SegmentTheorems
  import opened Tiers
  import Raws = RawMemory

  /** Some bytes of a tier's own. */
  datatype Spot = Spot(owner: Owner, lo: int, hi: int)

  /** The bytes that may be written between the states t and u, where t has all the
      blocks: the link of a carved block that no client of u holds, the tag of any block
      of the heap, and the node of a block that is not live in u. */
  ghost predicate IsMeta(t: State, u: State, s: Spot) {
    match s.owner
    case Small(c) =>
      && c < |t.small| && c < |u.small| && c < CLASS_COUNT
      && s.lo in Addrs(t.small[c].shard) && s.lo !in u.small[c].live && s.hi == s.lo + 8
    case Medium =>
      && s.hi == s.lo + 16
      && (s.lo in t.heap.blocks || (s.lo - NODE_OFFSET in t.heap.blocks && !IsLive(u.heap, s.lo - NODE_OFFSET)))
    case Large => false
  }

  ghost predicate Mapped(t: State, lo: int, hi: int) {
    exists g :: IsRegion(t, g) && g.base <= lo && hi <= g.base + g.size
  }

  ghost predicate Untagged(t: State, u: State, lo: int, hi: int) {
    forall s :: IsMeta(t, u, s) ==> !Overlap(s.lo, s.hi, lo, hi)
  }

  /** Between t and u a tier writes its own bytes only; what is mapped throughout and is
      not of that kind stays as it is. */
  ghost predicate Quiet(t: State, u: State, m: Raws.Memory, m': Raws.Memory) {
    forall lo, hi {:trigger Raws.Same(m, m', lo, hi)} ::
      Mapped(t, lo, hi) && Mapped(u, lo, hi) && Untagged(t, u, lo, hi) ==> Raws.Same(m, m', lo, hi)
  }

  // -------------------------------------------------------------- where the bytes lie

  lemma LinkCell(t: State, u: State, s: Spot) returns (cell: Cell)
    requires TiersOK(t) && IsMeta(t, u, s) && s.owner.Small?
    ensures cell in t.small[s.owner.class_].shard.carved && cell.addr == s.lo
    ensures ShardOK(t.small[s.owner.class_].shard, Stride(s.owner.class_))
  {
    var c := s.owner.class_;
    assert ClassOK(t.small[c], Stride(c));
    cell :| cell in t.small[c].shard.carved && cell.addr == s.lo;
  }

  lemma MetaInside(t: State, u: State, s: Spot) returns (g: Region)
    requires TiersOK(t) && IsMeta(t, u, s)
    ensures IsRegion(t, g) && g.owner == s.owner && g.base <= s.lo && s.hi <= g.base + g.size
  {
    if s.owner.Small? {
      var c := s.owner.class_;
      var cell := LinkCell(t, u, s);
      CarvedInRun(t.small[c].shard, Stride(c), cell);
      StrideBounds(c);
      g := Region(s.owner, t.small[c].shard.runs[cell.run], RUN_SIZE);
      assert IsRegion(t, g);
    } else {
      g := BlockRegion(t.heap, if s.lo in t.heap.blocks then s.lo else s.lo - NODE_OFFSET);
      assert IsRegion(t, g);
    }
  }

  // ------------------------------------------------------------------ live and freed

  /** No byte that a tier writes for itself is inside a block handed out before and
      after. */
  lemma RawUntagged(t: State, u: State, r: Raw)
    requires TiersOK(t) && IsRaw(t, r) && IsRaw(u, r)
    ensures Untagged(t, u, r.lo, r.hi)
  {
    forall s | IsMeta(t, u, s)
      ensures !Overlap(s.lo, s.hi, r.lo, r.hi)
    {
      if s.owner != r.owner {
        OtherOwner(t, u, r, s);
      } else if r.owner.Small? {
        LinkOutside(t, u, r, s);
      } else {
        TagOutside(t, u, r, s);
      }
    }
  }

  lemma OtherOwner(t: State, u: State, r: Raw, s: Spot)
    requires TiersOK(t) && IsRaw(t, r) && IsMeta(t, u, s) && s.owner != r.owner
    ensures !Overlap(s.lo, s.hi, r.lo, r.hi)
  {
    var g := RawInside(t, r);
    var h := MetaInside(t, u, s);
    assert !Overlap(g.base, g.base + g.size, h.base, h.base + h.size);
  }

  lemma LinkOutside(t: State, u: State, r: Raw, s: Spot)
    requires TiersOK(t) && IsRaw(t, r) && IsRaw(u, r) && IsMeta(t, u, s) && s.owner == r.owner && r.owner.Small?
    ensures !Overlap(s.lo, s.hi, r.lo, r.hi)
  {
    var c := r.owner.class_;
    var cell := LinkCell(t, u, s);
    assert ClassOK(t.small[c], Stride(c));
    var loc :| Placed(t.small[c], loc, Stride(c));
    var mine := CellOf(t.small[c], loc, Stride(c), r.lo);
    CellsApart(t.small[c].shard, Stride(c), cell, mine);
    StrideBounds(c);
  }

  lemma TagOutside(t: State, u: State, r: Raw, s: Spot)
    requires TiersOK(t) && IsRaw(t, r) && IsRaw(u, r) && IsMeta(t, u, s) && s.owner == r.owner && r.owner.Medium?
    ensures !Overlap(s.lo, s.hi, r.lo, r.hi)
  {
    var c := r.lo - BLOCK_HEADER_SIZE;
    var b := if s.lo in t.heap.blocks then s.lo else s.lo - NODE_OFFSET;
    if b != c {
      BlocksApart(t.heap, b, c);
      var g := BlockRegion(t.heap, b);
    }
  }

  lemma RawMapped(t: State, r: Raw)
    requires TiersOK(t) && IsRaw(t, r)
    ensures Mapped(t, r.lo, r.hi)
  {
    var g := RawInside(t, r);
  }

  /** So a tier at work leaves every block that stays handed out as it is. */
  lemma QuietKeeps(t: State, u: State, m: Raws.Memory, m': Raws.Memory, r: Raw)
    requires TiersOK(t) && TiersOK(u) && Quiet(t, u, m, m') && IsRaw(t, r) && IsRaw(u, r)
    ensures Raws.Same(m, m', r.lo, r.hi)
  {
    RawUntagged(t, u, r);
    RawMapped(t, r);
    RawMapped(u, r);
  }

  // ------------------------------------------------------------------- freed blocks

  ghost predicate Within(t: State, r: Raw) {
    exists g :: IsRegion(t, g) && g.owner == r.owner && g.base <= r.lo && r.hi <= g.base + g.size
  }

  /** r, live or freed, is still a whole slot: no block of the tier starts inside it. */
  ghost predicate Slotted(t: State, r: Raw) {
    && Within(t, r)
    && match r.owner
       case Small(c) =>
         c < |t.small| && c < CLASS_COUNT && r.lo in Addrs(t.small[c].shard) && r.hi == r.lo + Stride(c)
       case Medium => HeapSlot(t.heap.blocks, r)
       case Large => false
  }

  ghost predicate HeapSlot(blocks: SegmentLayout.Blocks, r: Raw) {
    forall b :: b in blocks ==>
      b == r.lo - BLOCK_HEADER_SIZE || b + MIN_BLOCK_SIZE <= r.lo - BLOCK_HEADER_SIZE || r.hi <= b
  }

  /** The part of a slot that no tier writes while the slot is whole: beyond the link of a
      small block, beside the node of a medium one. */
  predicate Beside(r: Raw, lo: int, hi: int) {
    && r.lo <= lo && hi <= r.hi
    && match r.owner
       case Small(_) => r.lo + 8 <= lo
       case Medium => hi <= r.lo + 16 || r.lo + 32 <= lo
       case Large => false
  }

  lemma RawSlotted(t: State, r: Raw)
    requires TiersOK(t) && IsRaw(t, r) && !r.owner.Large?
    ensures Slotted(t, r)
  {
    var g := RawInside(t, r);
    if r.owner.Small? {
      var c := r.owner.class_;
      assert ClassOK(t.small[c], Stride(c));
    } else {
      BlockSlotted(t.heap, r);
    }
  }

  lemma BlockSlotted(l: Layout, r: Raw)
    requires HeapOK(l) && r.lo - BLOCK_HEADER_SIZE in l.blocks
    requires r.hi == r.lo - BLOCK_HEADER_SIZE + l.blocks[r.lo - BLOCK_HEADER_SIZE].size
    ensures HeapSlot(l.blocks, r)
  {
    OpenHeap(l);
    assert Opened(l, 0);
    Around(l.blocks, r.lo - BLOCK_HEADER_SIZE);
  }

  lemma SlotUntagged(t: State, u: State, r: Raw, lo: int, hi: int)
    requires TiersOK(t) && Slotted(t, r) && Beside(r, lo, hi)
    ensures Untagged(t, u, lo, hi)
  {
    forall s | IsMeta(t, u, s)
      ensures !Overlap(s.lo, s.hi, lo, hi)
    {
      if s.owner != r.owner {
        var g :| IsRegion(t, g) && g.owner == r.owner && g.base <= r.lo && r.hi <= g.base + g.size;
        var h := MetaInside(t, u, s);
        assert !Overlap(g.base, g.base + g.size, h.base, h.base + h.size);
      } else if r.owner.Small? {
        LinkBeside(t, u, r, s, lo, hi);
      } else {
        TagBeside(t, u, r, s, lo, hi);
      }
    }
  }

  lemma LinkBeside(t: State, u: State, r: Raw, s: Spot, lo: int, hi: int)
    requires TiersOK(t) && Slotted(t, r) && Beside(r, lo, hi) && IsMeta(t, u, s)
    requires s.owner == r.owner && r.owner.Small?
    ensures !Overlap(s.lo, s.hi, lo, hi)
  {
    var c := r.owner.class_;
    var cell := LinkCell(t, u, s);
    var mine :| mine in t.small[c].shard.carved && mine.addr == r.lo;
    if mine != cell { CellsApart(t.small[c].shard, Stride(c), cell, mine); }
    StrideBounds(c);
  }

  lemma TagBeside(t: State, u: State, r: Raw, s: Spot, lo: int, hi: int)
    requires HeapSlot(t.heap.blocks, r) && Beside(r, lo, hi) && IsMeta(t, u, s)
    requires s.owner == r.owner && r.owner.Medium?
    ensures !Overlap(s.lo, s.hi, lo, hi)
  {
    var b := if s.lo in t.heap.blocks then s.lo else s.lo - NODE_OFFSET;
    assert b in t.heap.blocks;
  }

  /** Frees only merge blocks and only give mappings back, so a slot stays whole for as
      long as it is mapped. */
  lemma SlotKept(t: State, q: Raw, via: Via, r: Raw)
    requires IsRaw(t, q) && Slotted(t, r) && Within(Release(t, q, via), r)
    ensures Slotted(Release(t, q, via), r)
  {
    var t' := Release(t, q, via);
    if q.owner.Medium? { FreeShrinks(t, q, via); }
  }

  lemma FreeShrinks(t: State, q: Raw, via: Via)
    requires IsRaw(t, q) && q.owner.Medium?
    ensures Release(t, q, via).heap.blocks.Keys <= t.heap.blocks.Keys && Release(t, q, via).small == t.small
  {}

  // --------------------------------------------------------------- threads come and go

  /** A thread's cache for class c is created, or flushed and destroyed. */
  ghost predicate CanMove(t: State, c: nat, step: Step) {
    && c < |t.small| && c < CLASS_COUNT && (step.Arrive? || step.Exit?)
    && Stride(c) > 0 && Enabled(t.small[c], Stride(c), step)
  }

  ghost function Threaded(t: State, c: nat, step: Step): State
    requires CanMove(t, c, step)
  {
    t.(small := t.small[c := Apply(t.small[c], Stride(c), step)])
  }

  lemma ThreadedKeeps(t: State, c: nat, step: Step)
    requires TiersOK(t) && CanMove(t, c, step)
    ensures TiersOK(Threaded(t, c, step))
    ensures forall r :: IsRaw(Threaded(t, c, step), r) <==> IsRaw(t, r)
    ensures forall g :: IsRegion(Threaded(t, c, step), g) <==> IsRegion(t, g)
    ensures forall r :: Slotted(t, r) ==> Slotted(Threaded(t, c, step), r)
  {
    var s' := Apply(t.small[c], Stride(c), step);
    var t' := Threaded(t, c, step);
    assert ClassOK(t.small[c], Stride(c));
    var loc :| Placed(t.small[c], loc, Stride(c));
    var loc' := StepKeepsPlaces(t.small[c], loc, Stride(c), step);
    assert ClassOK(s', Stride(c));
    ClassRegions(t, c, s');
    ClassReplaced(t, c, s');
    SlotsStay(t, c, s');
  }

  lemma SlotsStay(t: State, c: nat, s': System)
    requires c < |t.small| && s'.shard.runs == t.small[c].shard.runs && s'.shard.carved == t.small[c].shard.carved
    ensures forall r :: Slotted(t, r) ==> Slotted(t.(small := t.small[c := s']), r)
  {
    var t' := t.(small := t.small[c := s']);
    forall r | Slotted(t, r)
      ensures Slotted(t', r)
    {
      var g :| IsRegion(t, g) && g.owner == r.owner && g.base <= r.lo && r.hi <= g.base + g.size;
      assert IsRegion(t', g);
    }
  }

  lemma StartOK()
    ensures TiersOK(START_STATE) && forall r :: !IsRaw(START_STATE, r)
  {
    SegmentTheorems.EmptyWellFormed();
    CloseHeap(SegmentTheorems.EMPTY);
    forall c | 0 <= c < CLASS_COUNT
      ensures ClassOK(START_STATE.small[c], Stride(c))
    {
      StrideFits(c);
      assert Placed(START, map[], Stride(c));
    }
  }

  const START_STATE: State := State(seq(CLASS_COUNT, _ => START), SegmentTheorems.EMPTY, map[])

  // ------------------------------------------------------- the segment heap's own frame

  lemma SpotOf(t: State, u: State, nodes: set<int>, a: int) returns (s: Spot)
    requires Meta(t.heap.blocks.Keys, nodes, a)
    requires forall x :: x in nodes ==> x in t.heap.blocks && !IsLive(u.heap, x)
    ensures IsMeta(t, u, s) && s.owner == Medium && s.lo <= a && a + 8 <= s.hi
  {
    if a in t.heap.blocks {
      s := Spot(Medium, a, a + 16);
    } else if a - 8 in t.heap.blocks {
      s := Spot(Medium, a - 8, a + 8);
    } else if a - 32 in nodes {
      s := Spot(Medium, a, a + 16);
    } else {
      s := Spot(Medium, a - 8, a + 8);
    }
  }

  lemma NotLiveAfter(t: State, q: Raw, via: Via, x: int)
    requires TiersOK(t) && IsRaw(t, q) && q.owner.Medium?
    requires x in FreeKeys(t.heap.blocks) || x == q.lo - BLOCK_HEADER_SIZE
    ensures x in t.heap.blocks && !IsLive(Release(t, q, via).heap, x)
  {
    var b := q.lo - BLOCK_HEADER_SIZE;
    FreedHeap(t.heap, b);
    ReleaseMedium(t, q, via);
    assert x !in Live(FreeAt(t.heap, b));
  }
}
