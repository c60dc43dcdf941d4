/** When the first fit is also the best fit. */
module BestFit {
  import opened Folding
  import opened Words
  import opened Tags
  import opened SegmentLayout
  import opened SegmentBins
  import opened SegmentSteps
  import opened SegmentTheorems
  import opened SegmentHeaps
  import opened SystemMemory

  ghost predicate Fits(blocks: Blocks, x: int, total: nat) {
    x in blocks && blocks[x].free && total <= blocks[x].size
  }

  /** b is a smallest free block that fits. */
  ghost predicate Smallest(blocks: Blocks, b: int, total: nat) {
    b in blocks && forall x :: Fits(blocks, x, total) ==> blocks[b].size <= blocks[x].size
  }

  /** No fitting block behind place k of the chain is smaller than the one at k. */
  ghost predicate NoneSmallerBehind(blocks: Blocks, q: seq<int>, k: int, total: nat) {
    forall j :: 0 <= k < j < |q| && Fits(blocks, q[j], total) ==>
      q[k] in blocks && blocks[q[k]].size <= blocks[q[j]].size
  }

  /** The first fit is a best fit if and only if no fitting block further down its own bin
      is smaller. */
  lemma FirstFitIsBestIff(m: Mem, heads: seq<nat>, chains: seq<seq<int>>, blocks: Blocks, total: nat, i: int, k: int)
    requires Agree(m, heads, chains, blocks) && FirstFit(blocks, chains, total, i, k)
    ensures Smallest(blocks, chains[i][k], total) <==> NoneSmallerBehind(blocks, chains[i], k, total)
  {
    if NoneSmallerBehind(blocks, chains[i], k, total) {
      forall x | Fits(blocks, x, total)
        ensures blocks[chains[i][k]].size <= blocks[x].size
      {
        NotSmaller(m, heads, chains, blocks, total, i, k, x);
      }
    }
  }

  lemma NotSmaller(m: Mem, heads: seq<nat>, chains: seq<seq<int>>, blocks: Blocks, total: nat, i: int, k: int, x: int)
    requires Agree(m, heads, chains, blocks) && FirstFit(blocks, chains, total, i, k)
    requires NoneSmallerBehind(blocks, chains[i], k, total) && Fits(blocks, x, total)
    ensures blocks[chains[i][k]].size <= blocks[x].size
  {
    var j, y := FitIsListed(m, heads, chains, blocks, total, x);
    assert BinOK(m, heads[i], chains[i], blocks, i);
    assert InBin(blocks, chains[i][k], i);
    if j == i {
      assert y >= k;
    } else if blocks[x].size < blocks[chains[i][k]].size {
      BinIndexMonotone(blocks[x].size, blocks[chains[i][k]].size);
    }
  }

  // ------------------------------------------------------------------- a run to show it

  /** The segment at h after blocks of 6144, 4160, 5120 and 4160 bytes were cut off it, as
      far as there are n of them. */
  function Cut(h: int, n: nat): Blocks
    requires n <= 4
  {
    if n == 0 then map[h := Blk(SEGMENT_SIZE, 0, true, h)]
    else if n == 1 then map[h := Blk(6144, 0, false, h), h + 6144 := Blk(SEGMENT_SIZE - 6144, 6144, true, h)]
    else if n == 2 then
      map[h := Blk(6144, 0, false, h), h + 6144 := Blk(4160, 6144, false, h),
          h + 10304 := Blk(SEGMENT_SIZE - 10304, 4160, true, h)]
    else if n == 3 then
      map[h := Blk(6144, 0, false, h), h + 6144 := Blk(4160, 6144, false, h),
          h + 10304 := Blk(5120, 4160, false, h), h + 15424 := Blk(SEGMENT_SIZE - 15424, 5120, true, h)]
    else
      map[h := Blk(6144, 0, false, h), h + 6144 := Blk(4160, 6144, false, h),
          h + 10304 := Blk(5120, 4160, false, h), h + 15424 := Blk(4160, 5120, false, h),
          h + 19584 := Blk(SEGMENT_SIZE - 19584, 4160, true, h)]
  }

  /** The n-th block: where it is, and how large it is cut. */
  function Start(h: int, n: nat): int
    requires n <= 4
  {
    if n == 0 then h else if n == 1 then h + 6144 else if n == 2 then h + 10304 else if n == 3 then h + 15424 else h + 19584
  }

  function Piece(n: nat): nat {
    if n == 0 then 6144 else if n == 2 then 5120 else 4160
  }

  lemma CutNext(h: int, n: nat)
    requires n < 4
    ensures var l := Layout(Cut(h, n), [h]);
            && FreeFit(l, Start(h, n), Piece(n)) && (forall x :: FreeFit(l, x, Piece(n)) ==> x == Start(h, n))
            && AllocAt(l, Start(h, n), Piece(n)) == Layout(Cut(h, n + 1), [h])
  {
    var l := Layout(Cut(h, n), [h]);
    assert AllocAt(l, Start(h, n), Piece(n)).blocks == Cut(h, n + 1);
  }

  /** Freed last, the block of 6144 bytes leads its bin, before the one of 5120. */
  lemma FreeBoth(h: int)
    ensures var l := Layout(Cut(h, 4), [h]);
            var bs := SetFree(l.blocks, h + 10304, true);
            && IsLive(l, h + 10304) && MergeStart(l.blocks, h + 10304) == h + 10304
            && FreeAt(l, h + 10304) == Layout(bs, [h])
            && IsLive(Layout(bs, [h]), h) && MergeStart(bs, h) == h
            && FreeAt(Layout(bs, [h]), h) == Layout(SetFree(bs, h, true), [h])
  {
    FreeThird(h);
    FreeFirst(h);
  }

  lemma FreeThird(h: int)
    ensures var l := Layout(Cut(h, 4), [h]);
            && IsLive(l, h + 10304) && MergeStart(l.blocks, h + 10304) == h + 10304
            && FreeAt(l, h + 10304) == Layout(SetFree(l.blocks, h + 10304, true), [h])
  {
    var bs := Cut(h, 4);
    assert Merge(bs, h + 10304, h + 15424) == bs;
  }

  lemma FreeFirst(h: int)
    ensures var bs := SetFree(Cut(h, 4), h + 10304, true);
            && IsLive(Layout(bs, [h]), h) && MergeStart(bs, h) == h
            && FreeAt(Layout(bs, [h]), h) == Layout(SetFree(bs, h, true), [h])
  {
    var bs := SetFree(Cut(h, 4), h + 10304, true);
    assert Merge(bs, h, h + 6144) == bs;
  }

  lemma Bin7(size: nat)
    requires 4096 <= size < 8192
    ensures BinIndex(size) == 7
  {
    BitWidthBounds(size);
    var w := BitWidth(size);
    if w < 13 {
      Pow2Monotone(w, 12);
    } else if w > 13 {
      Pow2Monotone(13, w - 1);
    }
    assert Pow2(12) == 4096 && Pow2(13) == 8192;
  }

  lemma Rounds(bytes: nat)
    requires bytes % 16 == 0 && 32 <= bytes < 8192
    ensures RoundedTotal(bytes) == bytes + 16
  {
    RoundedTotalExact(bytes);
  }

  /** The search stops at the first block of its first bin, if that fits. */
  lemma LeaderIsFound(blocks: Blocks, chains: seq<seq<int>>, total: nat, b: int, c: int)
    requires FoundFirst(blocks, chains, total, b) && Leads(blocks, chains, c)
    requires BinIndex(blocks[c].size) == BinIndex(total) && total <= blocks[c].size
    ensures b == c
  {
    var i, k :| FirstFit(blocks, chains, total, i, k) && chains[i][k] == b;
    var j := BinIndex(total);
    assert chains[j][0] == c;
  }

  /** The heap is the segment at h with n blocks cut off. */
  ghost predicate IsCut(l: Layout, h: int, n: nat) {
    forall key {:trigger Opened(l, key)} :: Opened(l, key) ==> n <= 4 && l == Layout(Cut(h, n), [h])
  }

  lemma CutStep(l: Layout, l': Layout, h: int, n: nat, b: int)
    requires IsCut(l, h, n) == true && n < 4 && Granted(l, l', b, Piece(n)) == true
    ensures b == Start(h, n) && IsCut(l', h, n + 1) == true && l'.segs == l.segs
  {
    assert Opened(l, 0);
    CutNext(h, n);
  }

  lemma CutFits(l: Layout, h: int, n: nat)
    requires IsCut(l, h, n) == true && n < 4
    ensures FreeFit(l, Start(h, n), Piece(n))
  {
    assert Opened(l, 0);
    CutNext(h, n);
  }

  lemma FirstCut(l: Layout, l': Layout, b: int)
    requires l == Layout(map[], []) && Granted(l, l', b, Piece(0)) == true
    ensures IsCut(l', b, 1) == true
  {
    CutNext(b, 0);
    assert AddSegment(l, b) == Layout(Cut(b, 0), [b]);
  }

  /** The first allocation, which maps the segment. */
  method CutFirst(heap: SegmentHeap) returns (payload: int)
    requires heap.Valid() && heap.View() == Layout(map[], [])
    modifies heap, heap.bins, heap.os
    ensures heap.Valid() && payload >= 0
    ensures if payload == 0 then heap.os.refusals > old(heap.os.refusals) else IsCut(heap.View(), payload - 16, 1) == true
  {
    Rounds(6128);
    ghost var l := heap.View();
    payload := heap.Allocate(6128);
    if payload != 0 { FirstCut(l, heap.View(), payload - 16); }
  }

  /** One more, while only the rest of the segment is free. */
  method CutOff(heap: SegmentHeap, bytes: nat, ghost h: int, ghost n: nat) returns (payload: int)
    requires heap.Valid() && n < 4 && 32 <= bytes < 8192 && bytes + 16 == Piece(n) && IsCut(heap.View(), h, n) == true
    modifies heap, heap.bins, heap.os
    ensures heap.Valid() && payload - 16 == Start(h, n) && IsCut(heap.View(), h, n + 1) == true
  {
    Rounds(bytes);
    ghost var l := heap.View();
    CutFits(l, h, n);
    payload := heap.Allocate(bytes);
    CutStep(l, heap.View(), h, n, payload - 16);
  }

  /** Of the four blocks the third and the first are free, and the first leads its bin. */
  ghost predicate BothFree(l: Layout, chains: seq<seq<int>>, h: int) {
    && l == Layout(SetFree(SetFree(Cut(h, 4), h + 10304, true), h, true), [h])
    && Leads(l.blocks, chains, h)
  }

  method FreeBothOf(heap: SegmentHeap, a: int, c: int)
    requires heap.Valid() && IsCut(heap.View(), a - 16, 4) == true && c == a + 10304
    modifies heap, heap.bins, heap.os
    ensures heap.Valid() && BothFree(heap.View(), heap.chains, a - 16) == true
  {
    assert Opened(heap.View(), 0);
    FreeBoth(a - 16);
    heap.Deallocate(c);
    heap.Deallocate(a);
  }

  lemma LargerFound(l: Layout, chains: seq<seq<int>>, h: int, b: int)
    requires BothFree(l, chains, h) == true && FoundFirst(l.blocks, chains, 5120, b)
    ensures b == h && l.blocks[h].size == 6144 && Fits(l.blocks, h + 10304, 5120) && l.blocks[h + 10304].size == 5120
  {
    Bin7(6144);
    Bin7(5120);
    LeaderIsFound(l.blocks, chains, 5120, b, h);
  }

  lemma SparedFits(l: Layout, chains: seq<seq<int>>, h: int)
    requires BothFree(l, chains, h) == true
    ensures FreeFit(l, h + 10304, 5120) && l.segs == [h]
  {}

  /** From l to l' a request of total bytes took block b although spared is free and fits
      exactly, and b is larger. */
  ghost predicate LargerTaken(l: Layout, l': Layout, b: int, spared: int, total: nat) {
    && Fits(l.blocks, spared, total) && l.blocks[spared].size == total
    && FreeFit(l, b, total) && l.blocks[b].size > total && l' == AllocAt(l, b, total)
  }

  method TakeLarger(heap: SegmentHeap, ghost h: int) returns (payload: int)
    requires heap.Valid() && BothFree(heap.View(), heap.chains, h) == true
    modifies heap, heap.bins, heap.os
    ensures heap.Valid()
    ensures LargerTaken(old(heap.View()), heap.View(), payload - BLOCK_HEADER_SIZE, h + 10304, RoundedTotal(5104)) == true
  {
    ghost var l, chains := heap.View(), heap.chains;
    Rounds(5104);
    SparedFits(l, chains, h);
    payload := heap.Allocate(5104);
    LargerIsTaken(l, heap.View(), chains, h, payload - 16);
  }

  lemma LargerIsTaken(l: Layout, l': Layout, chains: seq<seq<int>>, h: int, b: int)
    requires BothFree(l, chains, h) == true && (l'.segs == l.segs ==> FoundFirst(l.blocks, chains, 5120, b) == true)
    requires Granted(l, l', b, 5120) == true
    ensures LargerTaken(l, l', b, h + 10304, 5120) == true
  {
    SparedFits(l, chains, h);
    LargerFound(l, chains, h, b);
  }

  method Begin(os: Os) returns (heap: SegmentHeap, a: int)
    requires os.Valid()
    modifies os
    ensures fresh(heap) && fresh(heap.bins) && heap.Valid() && heap.os == os && a >= 0
    ensures if a == 0 then os.refusals > old(os.refusals) else IsCut(heap.View(), a - 16, 1) == true
  {
    heap := new SegmentHeap(os);
    EmptyWellFormed();
    a := CutFirst(heap);
  }

  method CutThree(heap: SegmentHeap, a: int) returns (c: int)
    requires heap.Valid() && IsCut(heap.View(), a - 16, 1) == true
    modifies heap, heap.bins, heap.os
    ensures heap.Valid() && IsCut(heap.View(), a - 16, 4) == true && c == a + 10304
  {
    var b := CutOff(heap, 4144, a - 16, 1);
    c := CutOff(heap, 5104, a - 16, 2);
    var d := CutOff(heap, 4144, a - 16, 3);
  }

  /** A run from the empty heap that ends with a fit which is not the best: a request of
      5104 bytes is given a block of 6144 bytes although one of exactly 5120 is free, because
      the larger one was freed last. It takes but one mapping, which must not be refused. */
  method NotAlwaysBest(os: Os) returns (done: bool, heap: SegmentHeap, payload: int, ghost l: Layout, ghost spared: int)
    requires os.Valid()
    modifies os
    ensures fresh(heap) && heap.Valid() && heap.os == os && (!done ==> os.refusals > old(os.refusals))
    ensures done ==> LargerTaken(l, heap.View(), payload - BLOCK_HEADER_SIZE, spared, RoundedTotal(5104))
  {
    var a;
    heap, a := Begin(os);
    l, spared := heap.View(), a - 16 + 10304;
    if a == 0 {
      return false, heap, 0, l, spared;
    }
    var c := CutThree(heap, a);
    FreeBothOf(heap, a, c);
    l, done := heap.View(), true;
    payload := TakeLarger(heap, a - 16);
  }
}
