/** What the tiers leave in memory, byte by byte: their words as the classes keep them,
    laid over everything else. */
module TierImages {
  import opened Folding
  import opened SystemMemory
  import opened SizeClasses
  import opened Shards
  import opened PoolSystem
  import opened Pools
  import opened SegmentLayout
  import opened SegmentBins
  import opened SegmentSteps
  import opened Tags
  import opened Tiers
  import opened TierWrites
  import opened RawMemory

  // ---------------------------------------------------------------------- segment heap

  /** The word at a is one of the heap's own: a tag, or the node of a free block. */
  predicate OwnWord(blocks: SegmentLayout.Blocks, a: int) {
    || a in blocks || a - 8 in blocks
    || (a - 32 in blocks && blocks[a - 32].free) || (a - 40 in blocks && blocks[a - 40].free)
  }

  /** The heap has gone from the words mem to mem': what it changed, and all that is its
      own now, is in memory. */
  function HeapImage(m: Memory, mem: Mem, mem': Mem, blocks: SegmentLayout.Blocks): Memory {
    Memory(x =>
      var a := x - x % 8;
      if Word(mem', a) != Word(mem, a) || OwnWord(blocks, a) then Digit(Word(mem', a), x - a) else m.bytes(x))
  }

  /** Every byte the image writes lies in a spot of the tier. */
  lemma ImageQuiet(t: State, u: State, mem: Mem, mem': Mem, blocks: SegmentLayout.Blocks, nodes: set<int>, m: Memory)
    requires OnlyMeta(mem, mem', t.heap.blocks.Keys, nodes) && blocks.Keys <= t.heap.blocks.Keys
    requires forall x :: x in nodes ==> x in t.heap.blocks && !IsLive(u.heap, x)
    requires forall x :: x in blocks && blocks[x].free ==> x in nodes
    ensures Quiet(t, u, m, HeapImage(m, mem, mem', blocks))
  {
    var m' := HeapImage(m, mem, mem', blocks);
    forall lo, hi | Mapped(t, lo, hi) && Mapped(u, lo, hi) && Untagged(t, u, lo, hi)
      ensures Same(m, m', lo, hi)
    {
      forall x | lo <= x < hi
        ensures m'.bytes(x) == m.bytes(x)
      {
        WordQuiet(t, u, mem, mem', blocks, nodes, lo, hi, x);
      }
    }
  }

  lemma WordQuiet(t: State, u: State, mem: Mem, mem': Mem, blocks: SegmentLayout.Blocks, nodes: set<int>,
                  lo: int, hi: int, x: int)
    requires OnlyMeta(mem, mem', t.heap.blocks.Keys, nodes) && blocks.Keys <= t.heap.blocks.Keys
    requires forall x :: x in nodes ==> x in t.heap.blocks && !IsLive(u.heap, x)
    requires forall x :: x in blocks && blocks[x].free ==> x in nodes
    requires Untagged(t, u, lo, hi) && lo <= x < hi
    ensures var a := x - x % 8; Word(mem', a) == Word(mem, a) && !OwnWord(blocks, a)
  {
    var a := x - x % 8;
    if Meta(t.heap.blocks.Keys, nodes, a) {
      var s := SpotOf(t, u, nodes, a);
    }
  }

  /** allocate of the segment heap, as the facade meets it. */
  lemma HeapServeQuiet(t: State, l': Layout, mem: Mem, mem': Mem, b: int, h: Held, m: Memory)
    requires OnlyMeta(mem, mem', l'.blocks.Keys, NotHeld(t.heap.blocks, l'.blocks))
    requires Live(l') == Live(t.heap)[b := h]
    ensures Quiet(t.(heap := l'), t, m, HeapImage(m, mem, mem', l'.blocks))
  {
    var nodes := NotHeld(t.heap.blocks, l'.blocks);
    forall x | x in l'.blocks && l'.blocks[x].free
      ensures x in nodes
    {
      assert x in Live(t.heap) ==> x in Live(l');
    }
    ImageQuiet(t.(heap := l'), t, mem, mem', l'.blocks, nodes, m);
  }

  /** deallocate of the segment heap, as the facade meets it. */
  lemma HeapFreeQuiet(t: State, r: Raw, via: Via, mem: Mem, mem': Mem, m: Memory)
    requires TiersOK(t) && IsRaw(t, r) && r.owner.Medium? && t.heap.blocks[r.lo - BLOCK_HEADER_SIZE].size > 0
    requires OnlyMeta(mem, mem', t.heap.blocks.Keys, FreedNodes(t.heap, r.lo - BLOCK_HEADER_SIZE))
    ensures var t' := Release(t, r, via); Quiet(t, t', m, HeapImage(m, mem, mem', t'.heap.blocks))
  {
    var b, t' := r.lo - BLOCK_HEADER_SIZE, Release(t, r, via);
    var nodes := FreedNodes(t.heap, b) + FreeKeys(t'.heap.blocks);
    FreeShrinks(t, r, via);
    forall x | x in nodes
      ensures x in t.heap.blocks && !IsLive(t'.heap, x)
    {
      if x !in FreeKeys(t'.heap.blocks) { NotLiveAfter(t, r, via, x); }
    }
    OnlyMetaWeaken(mem, mem', t.heap.blocks.Keys, FreedNodes(t.heap, b), t.heap.blocks.Keys, nodes);
    ImageQuiet(t, t', mem, mem', t'.heap.blocks, nodes, m);
  }

  // --------------------------------------------------------------- memory and the heap

  /** Memory holds every word of the heap's own. */
  ghost predicate Mirrors(m: Memory, mem: Mem, blocks: SegmentLayout.Blocks) {
    forall a {:trigger OwnWord(blocks, a)} :: OwnWord(blocks, a) ==> Holds(m, a, 8, Word(mem, a))
  }

  lemma BlockAligned(l: Layout, b: int)
    requires HeapOK(l) && b in l.blocks && forall s :: s in l.segs ==> s % 16 == 0
    ensures b % 16 == 0
  {
    var g := BlockRegion(l, b);
  }

  lemma Eights(k: int, i: int)
    requires 0 <= i < 8
    ensures (8 * k + i) % 8 == i
  {}

  lemma ImageHolds(m: Memory, mem: Mem, mem': Mem, blocks: SegmentLayout.Blocks, a: int)
    requires a % 8 == 0 && OwnWord(blocks, a)
    ensures Holds(HeapImage(m, mem, mem', blocks), a, 8, Word(mem', a))
  {
    var m' := HeapImage(m, mem, mem', blocks);
    forall i | 0 <= i < 8
      ensures m'.bytes(a + i) == Digit(Word(mem', a), i)
    {
      WordStart(a, i);
      ImageAt(m, mem, mem', blocks, a, a + i);
    }
  }

  lemma WordStart(a: int, i: int)
    requires a % 8 == 0 && 0 <= i < 8
    ensures a + i - (a + i) % 8 == a
  {}

  lemma ImageAt(m: Memory, mem: Mem, mem': Mem, blocks: SegmentLayout.Blocks, a: int, x: int)
    requires x - x % 8 == a && OwnWord(blocks, a)
    ensures HeapImage(m, mem, mem', blocks).bytes(x) == Digit(Word(mem', a), x - a)
  {}

  lemma OwnAligned(l: Layout, a: int)
    requires HeapOK(l) && OwnWord(l.blocks, a) && forall s :: s in l.segs ==> s % 16 == 0
    ensures a % 8 == 0
  {
    var d := if a in l.blocks then 0 else if a - 8 in l.blocks then 1 else if a - 32 in l.blocks then 4 else 5;
    BlockAligned(l, a - 8 * d);
    Eights(2 * ((a - 8 * d) / 16) + d, 0);
  }

  /** The heap's image puts its words into memory. */
  lemma ImageReflects(m: Memory, mem: Mem, mem': Mem, l: Layout)
    requires HeapOK(l) && forall s :: s in l.segs ==> s % 16 == 0
    ensures Mirrors(HeapImage(m, mem, mem', l.blocks), mem', l.blocks)
  {
    forall a | OwnWord(l.blocks, a)
      ensures Holds(HeapImage(m, mem, mem', l.blocks), a, 8, Word(mem', a))
    {
      OwnAligned(l, a);
      ImageHolds(m, mem, mem', l.blocks, a);
    }
  }

  /** A word of the heap's own lies in a spot of the heap. */
  lemma OwnSpot(t: State, a: int) returns (s: Spot)
    requires OwnWord(t.heap.blocks, a)
    ensures IsMeta(t, t, s) && s.owner == Medium && s.lo <= a && a + 8 <= s.hi
  {
    s := SpotOf(t, t, FreeKeys(t.heap.blocks), a);
  }

  lemma HoldsSame(m: Memory, m': Memory, a: int, w: nat)
    requires Holds(m, a, 8, w) && Same(m, m', a, a + 8)
    ensures Holds(m', a, 8, w)
  {}

  /** Writes inside a block that is handed out do not reach the heap's words. */
  lemma ReflectedOutside(t: State, m: Memory, m': Memory, r: Raw, mem: Mem)
    requires TiersOK(t) && IsRaw(t, r) && Only(m, m', r.lo, r.hi) && Mirrors(m, mem, t.heap.blocks)
    ensures Mirrors(m', mem, t.heap.blocks)
  {
    RawUntagged(t, t, r);
    forall a | OwnWord(t.heap.blocks, a)
      ensures Holds(m', a, 8, Word(mem, a))
    {
      var s := OwnSpot(t, a);
      assert Same(m, m', a, a + 8);
      HoldsSame(m, m', a, Word(mem, a));
    }
  }

  /** Nor do the links of a free list. */
  lemma ReflectedBesideLinks(t: State, c: nat, m: Memory, next: map<int, int>, mem: Mem)
    requires TiersOK(t) && c < CLASS_COUNT && Mirrors(m, mem, t.heap.blocks)
    ensures Mirrors(LinkImage(m, next, t.small[c].shard.free), mem, t.heap.blocks)
  {
    var free := t.small[c].shard.free;
    forall a | OwnWord(t.heap.blocks, a)
      ensures Holds(LinkImage(m, next, free), a, 8, Word(mem, a))
    {
      var s := OwnSpot(t, a);
      forall b | b in free
        ensures !Overlap(b, b + 8, a, a + 8)
      {
        LinkBesideSpot(t, c, b, s);
      }
      LinksOutside(m, next, free, a, a + 8);
      HoldsSame(m, LinkImage(m, next, free), a, Word(mem, a));
    }
  }

  lemma LinkBesideSpot(t: State, c: nat, b: int, s: Spot)
    requires TiersOK(t) && c < CLASS_COUNT && b in t.small[c].shard.free && IsMeta(t, t, s) && s.owner == Medium
    ensures !Overlap(b, b + 8, s.lo, s.hi)
  {
    var g := MetaInside(t, t, s);
    var h := LinkRegion(t, c, b);
    assert !Overlap(g.base, g.base + g.size, h.base, h.base + h.size);
  }

  /** A block on a free list lies in a run of its class. */
  lemma LinkRegion(t: State, c: nat, b: int) returns (g: Region)
    requires TiersOK(t) && c < CLASS_COUNT && b in t.small[c].shard.free
    ensures IsRegion(t, g) && g.owner == Small(c) && g.base <= b && b + 8 <= g.base + g.size
    ensures IsMeta(t, t, Spot(Small(c), b, b + 8)) && b % 16 == 0
  {
    assert ClassOK(t.small[c], Stride(c));
    assert t.small[c := t.small[c]] == t.small;
    LinkIsMeta(t, c, t.small[c], b);
    var s := Spot(Small(c), b, b + 8);
    g := MetaInside(t, t, s);
    var cell := LinkCell(t, t, s);
    CellAligned(t, c, cell);
  }

  lemma CellAligned(t: State, c: nat, cell: Cell)
    requires TiersOK(t) && c < CLASS_COUNT && cell in t.small[c].shard.carved && ShardOK(t.small[c].shard, Stride(c))
    ensures cell.addr % 16 == 0
  {
    StrideBounds(c);
    CarvedInRun(t.small[c].shard, Stride(c), cell);
    assert IsRegion(t, Region(Small(c), t.small[c].shard.runs[cell.run], RUN_SIZE));
    SlotAligned(t.small[c].shard, Stride(c), cell);
  }

  // ------------------------------------------------------------------------- free lists

  /** The links of a free list are in the first words of its blocks. */
  function LinkImage(m: Memory, next: map<int, int>, contents: seq<int>): Memory {
    Memory(x =>
      var b := x - x % 16;
      if x - b < 8 && b in contents && b in next && next[b] >= 0 then Digit(next[b], x - b) else m.bytes(x))
  }

  /** A block on the free list is carved, and no client holds it. */
  lemma LinkIsMeta(t: State, c: nat, s': System, b: int)
    requires c < |t.small| && c < CLASS_COUNT && ClassOK(s', Stride(c)) && s'.shard.carved == t.small[c].shard.carved
    requires b in s'.shard.free
    ensures IsMeta(t, t.(small := t.small[c := s']), Spot(Small(c), b, b + 8))
  {
    var loc :| Placed(s', loc, Stride(c));
    assert b in loc && loc[b] == InShard;
  }

  /** A free list that has grown, as the facade meets it. */
  lemma LinksQuiet(t: State, c: nat, s': System, next: map<int, int>, m: Memory)
    requires c < |t.small| && c < CLASS_COUNT && ClassOK(s', Stride(c)) && s'.shard.carved == t.small[c].shard.carved
    ensures Quiet(t, t.(small := t.small[c := s']), m, LinkImage(m, next, s'.shard.free))
  {
    var u := t.(small := t.small[c := s']);
    forall lo, hi | Mapped(t, lo, hi) && Mapped(u, lo, hi) && Untagged(t, u, lo, hi)
      ensures Same(m, LinkImage(m, next, s'.shard.free), lo, hi)
    {
      forall b | b in s'.shard.free
        ensures !Overlap(b, b + 8, lo, hi)
      {
        LinkIsMeta(t, c, s', b);
      }
      LinksOutside(m, next, s'.shard.free, lo, hi);
    }
  }

  lemma LinksOutside(m: Memory, next: map<int, int>, contents: seq<int>, lo: int, hi: int)
    requires forall b :: b in contents ==> !Overlap(b, b + 8, lo, hi)
    ensures Same(m, LinkImage(m, next, contents), lo, hi)
  {}

  // ---------------------------------------------------------- memory and the free lists

  /** What the k-th block of a free list has in its first word. */
  function NextLink(free: seq<int>, k: nat): nat {
    if k + 1 < |free| && free[k + 1] > 0 then free[k + 1] else 0
  }

  ghost predicate LinkIn(m: Memory, free: seq<int>, k: nat)
    requires k < |free|
  {
    Holds(m, free[k], 8, NextLink(free, k))
  }

  /** Memory holds the free list. */
  ghost predicate ListIn(m: Memory, free: seq<int>) {
    forall k :: 0 <= k < |free| ==> LinkIn(m, free, k)
  }

  /** Memory holds the free lists of all classes. */
  ghost predicate ListsIn(m: Memory, small: seq<System>) {
    forall c :: 0 <= c < |small| ==> ListIn(m, small[c].shard.free)
  }

  /** Both memories agree on the first words of the list. */
  lemma ListSame(m: Memory, m': Memory, free: seq<int>)
    requires ListIn(m, free) && forall b :: b in free ==> Same(m, m', b, b + 8)
    ensures ListIn(m', free)
  {
    forall k | 0 <= k < |free|
      ensures LinkIn(m', free, k)
    {
      assert LinkIn(m, free, k) && free[k] in free;
      HoldsSame(m, m', free[k], NextLink(free, k));
    }
  }

  /** Blocks that are taken from the front leave the links of the others. */
  lemma ListDropped(m: Memory, free: seq<int>, k: nat)
    requires ListIn(m, free) && k <= |free|
    ensures ListIn(m, free[k..])
  {
    forall i | 0 <= i < |free[k..]|
      ensures LinkIn(m, free[k..], i)
    {
      assert LinkIn(m, free, k + i);
    }
  }

  /** The image of a list puts it into memory. */
  lemma ImageLinks(m: Memory, next: map<int, int>, head: int, free: seq<int>)
    requires ListOK(next, head, free) && forall b :: b in free ==> b % 16 == 0 && b > 0
    ensures ListIn(LinkImage(m, next, free), free)
  {
    var m' := LinkImage(m, next, free);
    forall k | 0 <= k < |free|
      ensures LinkIn(m', free, k)
    {
      assert LinkAt(next, free, k) && free[k] in free;
      assert k + 1 < |free| ==> free[k + 1] in free;
      forall i | 0 <= i < 8
        ensures m'.bytes(free[k] + i) == Digit(NextLink(free, k), i)
      {
        InSlot(free[k], i);
      }
    }
  }

  lemma InSlot(b: int, i: int)
    requires b % 16 == 0 && 0 <= i < 16
    ensures b + i - (b + i) % 16 == b
  {}

  /** Writes inside a block that is handed out do not reach the links. */
  lemma ListsOutside(t: State, m: Memory, m': Memory, r: Raw)
    requires TiersOK(t) && IsRaw(t, r) && Only(m, m', r.lo, r.hi) && ListsIn(m, t.small)
    ensures ListsIn(m', t.small)
  {
    RawUntagged(t, t, r);
    forall c | 0 <= c < |t.small|
      ensures ListIn(m', t.small[c].shard.free)
    {
      forall b | b in t.small[c].shard.free
        ensures Same(m, m', b, b + 8)
      {
        var g := LinkRegion(t, c, b);
      }
      ListSame(m, m', t.small[c].shard.free);
    }
  }

  /** Nor do the links of one class those of another. */
  lemma LinksBeside(t: State, c: nat, d: nat, m: Memory, next: map<int, int>)
    requires TiersOK(t) && c < CLASS_COUNT && d < CLASS_COUNT && c != d && ListIn(m, t.small[d].shard.free)
    ensures ListIn(LinkImage(m, next, t.small[c].shard.free), t.small[d].shard.free)
  {
    var free := t.small[c].shard.free;
    forall x | x in t.small[d].shard.free
      ensures Same(m, LinkImage(m, next, free), x, x + 8)
    {
      var g := LinkRegion(t, d, x);
      forall b | b in free
        ensures !Overlap(b, b + 8, x, x + 8)
      {
        var h := LinkRegion(t, c, b);
        assert !Overlap(g.base, g.base + g.size, h.base, h.base + h.size);
      }
      LinksOutside(m, next, free, x, x + 8);
    }
    ListSame(m, LinkImage(m, next, free), t.small[d].shard.free);
  }

  /** Nor do the words of the segment heap, all of which lie in its segments. */
  lemma ListsBesideHeap(t: State, m: Memory, mem: Mem, mem': Mem, blocks: SegmentLayout.Blocks)
    requires TiersOK(t) && OnlyMeta(mem, mem', t.heap.blocks.Keys, t.heap.blocks.Keys) && blocks.Keys <= t.heap.blocks.Keys
    requires ListsIn(m, t.small)
    ensures ListsIn(HeapImage(m, mem, mem', blocks), t.small)
  {
    var m' := HeapImage(m, mem, mem', blocks);
    forall c | 0 <= c < |t.small|
      ensures ListIn(m', t.small[c].shard.free)
    {
      forall b | b in t.small[c].shard.free
        ensures Same(m, m', b, b + 8)
      {
        LinkNotWritten(t, c, b, m, mem, mem', blocks);
      }
      ListSame(m, m', t.small[c].shard.free);
    }
  }

  lemma LinkNotWritten(t: State, c: nat, b: int, m: Memory, mem: Mem, mem': Mem, blocks: SegmentLayout.Blocks)
    requires TiersOK(t) && OnlyMeta(mem, mem', t.heap.blocks.Keys, t.heap.blocks.Keys) && blocks.Keys <= t.heap.blocks.Keys
    requires c < CLASS_COUNT && b in t.small[c].shard.free
    ensures Same(m, HeapImage(m, mem, mem', blocks), b, b + 8)
  {
    var g := LinkRegion(t, c, b);
    NoHeapWord(t, g, b);
    ByteLeft(b, m, mem, mem', blocks);
  }

  lemma ByteLeft(b: int, m: Memory, mem: Mem, mem': Mem, blocks: SegmentLayout.Blocks)
    requires b % 16 == 0 && Word(mem', b) == Word(mem, b) && !OwnWord(blocks, b)
    ensures Same(m, HeapImage(m, mem, mem', blocks), b, b + 8)
  {
    Eights(2 * (b / 16), 0);
    forall x | b <= x < b + 8
      ensures HeapImage(m, mem, mem', blocks).bytes(x) == m.bytes(x)
    {
      WordStart(b, x - b);
      ImageBeside(m, mem, mem', blocks, b, x);
    }
  }

  lemma ImageBeside(m: Memory, mem: Mem, mem': Mem, blocks: SegmentLayout.Blocks, a: int, x: int)
    requires x - x % 8 == a && Word(mem', a) == Word(mem, a) && !OwnWord(blocks, a)
    ensures HeapImage(m, mem, mem', blocks).bytes(x) == m.bytes(x)
  {}

  lemma NoHeapWord(t: State, g: Region, a: int)
    requires TiersOK(t) && IsRegion(t, g) && g.owner != Medium && g.base <= a && a + 8 <= g.base + g.size
    ensures !Meta(t.heap.blocks.Keys, t.heap.blocks.Keys, a)
  {
    if Meta(t.heap.blocks.Keys, t.heap.blocks.Keys, a) {
      var d := if a in t.heap.blocks then 0 else if a - 8 in t.heap.blocks then 8 else if a - 32 in t.heap.blocks then 32 else 40;
      var h := BlockRegion(t.heap, a - d);
    }
  }

  // ---------------------------------------------------------------- memory and all tiers

  /** Memory holds every tag, every node and every link as the tiers keep them. */
  ghost predicate Carries(m: Memory, t: State, mem: Mem) {
    Mirrors(m, mem, t.heap.blocks) && ListsIn(m, t.small)
  }

  /** The same, folded. */
  ghost predicate Reflected(m: Memory, t: State, mem: Mem) {
    forall key {:trigger Opened(m, key)} :: Opened(m, key) ==> Carries(m, t, mem)
  }
}
