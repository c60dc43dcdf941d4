/** What a second free of a medium block meets when its header is a shim right behind the
    universal header, where the free node goes. */
module SecondFree {
  import opened SystemMemory
  import opened SegmentLayout
  import opened SegmentBins
  import opened SegmentSteps
  import opened Tags
  import opened Tiers
  import opened TierImages
  import opened TierSteps
  import opened RawMemory
  import opened FreedBlocks

  // -------------------------------------------------------------- links read as headers

  /** The two low bytes of a stored word. */
  lemma ReadLow(m: Memory, a: int, w: nat)
    requires Holds(m, a, 8, w)
    ensures Read(m, a, a + 2) == w % 0x1_0000
  {
    assert m.bytes(a + 0) == Digit(w, 0) && m.bytes(a + 1) == Digit(w, 1);
    assert Digit(w, 1) == Digit(w / 256, 0);
    assert Read(m, a + 1, a + 2) == m.bytes(a + 1) as nat + 256 * Read(m, a + 2, a + 2);
  }

  /** A link is a multiple of 16, and no tier code is: read as a header it has no tier. */
  lemma LinkHasNoTier(w: nat)
    requires w % 16 == 0
    ensures !ValidTier(w % 0x1_0000)
  {
    assert w % 0x1_0000 % 16 == 0;
  }

  // ---------------------------------------------------------- where blocks and nodes lie

  lemma LinkAligned(l: Layout, w: nat)
    requires HeapOK(l) && IsLink(l.blocks, w) && forall s :: s in l.segs ==> s % 16 == 0
    ensures w % 16 == 0
  {
    if w != 0 {
      var c: int := w;
      BlockAligned(l, c - 32);
    }
  }

  lemma LinkIsNoHeader(m: Memory, p: int, w: nat)
    requires Holds(m, p - 8, 8, w) && w % 16 == 0
    ensures !FreedMark(m, p) && !LooksIssued(m, p)
  {
    ReadLow(m, p - 8, w);
    LinkHasNoTier(w);
  }

  /** The node of a free block is in memory: the second word is read as tier and state. */
  lemma NodeReplacesShim(m: Memory, mem: Mem, l: Layout, mem': Mem, b: int)
    requires HeapOK(l) && b in l.blocks && l.blocks[b].free && NodeLinks(mem', l.blocks, b)
    requires forall s :: s in l.segs ==> s % 16 == 0
    ensures var m' := HeapImage(m, mem, mem', l.blocks); !FreedMark(m', b + 48) && !LooksIssued(m', b + 48)
  {
    BlockAligned(l, b);
    LinkAligned(l, Word(mem', b + 40));
    SecondWord(b);
    ImageHolds(m, mem, mem', l.blocks, b + 40);
    LinkIsNoHeader(HeapImage(m, mem, mem', l.blocks), b + 48, Word(mem', b + 40));
  }

  /** The payload of a block that was swallowed is left alone. */
  lemma SwallowedShimStays(m: Memory, mem: Mem, l: Layout, mem': Mem, b: int)
    requires HeapOK(l) && IsLive(l, b) && l.blocks[b].size >= 64 && b % 16 == 0
    requires b !in FreeAt(l, b).blocks && Untouched(mem, mem', b + BLOCK_HEADER_SIZE, b + l.blocks[b].size)
    ensures Same(m, HeapImage(m, mem, mem', FreeAt(l, b).blocks), b + 32, b + 48)
  {
    NoneInside(l, b);
    NotWritten(m, mem, mem', FreeAt(l, b).blocks, b);
  }

  lemma NotWritten(m: Memory, mem: Mem, mem': Mem, blocks: SegmentLayout.Blocks, b: int)
    requires b % 16 == 0 && Word(mem', b + 32) == Word(mem, b + 32) && Word(mem', b + 40) == Word(mem, b + 40)
    requires !OwnWord(blocks, b + 32) && !OwnWord(blocks, b + 40)
    ensures Same(m, HeapImage(m, mem, mem', blocks), b + 32, b + 48)
  {
    forall x | b + 32 <= x < b + 48
      ensures x - x % 8 == b + 32 || x - x % 8 == b + 40
    {
      WordOf(b, x);
    }
  }

  lemma WordOf(b: int, x: int)
    requires b % 16 == 0 && b + 32 <= x < b + 48
    ensures x - x % 8 == b + 32 || x - x % 8 == b + 40
  {
    var q, i := b / 16, x - b - 32;
    if i < 8 { Eights(2 * q + 4, i); } else { Eights(2 * q + 5, i - 8); }
  }

  lemma SecondWord(b: int)
    requires b % 16 == 0
    ensures (b + 40) % 8 == 0
  {
    Eights(2 * (b / 16) + 5, 0);
  }

  lemma NoneInside(l: Layout, b: int)
    requires HeapOK(l) && IsLive(l, b) && l.blocks[b].size >= 64 && b !in FreeAt(l, b).blocks
    ensures !OwnWord(FreeAt(l, b).blocks, b + 32) && !OwnWord(FreeAt(l, b).blocks, b + 40)
  {
    forall x | x in FreeAt(l, b).blocks
      ensures x in l.blocks && (x + 48 <= b || b + 64 <= x)
    {
      BlocksApart(l, b, x);
      var g := BlockRegion(l, x);
    }
  }

  /** When its segment is given back, no mapping holds the shim any more. */
  lemma ShimUnmapped(t: State, mapped: map<int, nat>, l': Layout, mapped': map<int, nat>, b: int)
    requires Housed(t, mapped) && b in t.heap.blocks && SegmentGone(t.heap, l', b, mapped, mapped')
    requires l'.segs != t.heap.segs
    ensures forall x :: x in mapped' ==> Disjoint(x, mapped'[x], b + 32, 16)
  {
    OpenHoused(t, mapped);
    var g := BlockRegion(t.heap, b);
    assert IsRegion(t, g);
    forall x | x in mapped'
      ensures Disjoint(x, mapped'[x], b + 32, 16)
    {
      assert Disjoint(x, mapped[x], g.base, g.size);
    }
  }
}
