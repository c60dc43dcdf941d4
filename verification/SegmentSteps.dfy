/** The single steps of the segment heap's operations: what each does to the blocks,
    to the words of memory, and to the agreement between tags and bins. */
module SegmentSteps {
  import opened Folding
  import opened Words
  import opened Tags
  import opened SystemMemory
  import opened SegmentLayout
  import opened SegmentBins
  import opened SegmentTheorems
  import opened Sums

  // ---------------------------------------------------- the steps of deallocate

  /** left takes over right. */
  function Absorb(blocks: Blocks, left: int, right: int): Blocks
    requires left in blocks && right in blocks
  {
    (blocks - {right})[left := blocks[left].(size := blocks[left].size + blocks[right].size)]
  }

  ghost predicate Adjacent(blocks: Blocks, left: int, right: int) {
    && left in blocks && right in blocks && left != right
    && left + blocks[left].size == right && blocks[left].home == blocks[right].home
  }

  lemma AbsorbKeepsShape(blocks: Blocks, left: int, right: int)
    requires Shaped(blocks) && Adjacent(blocks, left, right)
    ensures Shaped(Absorb(blocks, left, right))
  {
    var bs' := Absorb(blocks, left, right);
    assert Granular(blocks[left]) && Granular(blocks[right]);
    forall x | x in bs'
      ensures Granular(bs'[x])
    {
      assert Granular(blocks[x]);
    }
    forall x, y | x in bs' && y in bs' && x < y
      ensures Before(bs', x, y)
    {
      assert Before(blocks, x, y);
      Around(blocks, right);
    }
  }

  function MergedRight(blocks: Blocks, b: int): Blocks
    requires b in blocks
  {
    var n := b + blocks[b].size;
    if AbsorbsRight(blocks, b) then Absorb(SetFree(blocks, n, false), b, n) else blocks
  }

  function MergedLeft(blocks: Blocks, b: int): Blocks
    requires b in blocks
  {
    var p := b - blocks[b].prev;
    if AbsorbedByLeft(blocks, b) then Absorb(SetFree(blocks, p, false), p, b) else blocks
  }

  function Relinked(blocks: Blocks, c: int): Blocks
    requires c in blocks
  {
    SetPrev(blocks, c + blocks[c].size, blocks[c].size, !Last(c, blocks[c]))
  }

  /** bs' is bs with the blocks from c up to e replaced by one taken block at c. */
  ghost predicate Joined(bs: Blocks, bs': Blocks, c: int, e: int) {
    && c in bs && c < e
    && (forall x :: x in bs' <==> x in bs && !(c < x < e))
    && bs'[c] == bs[c].(size := e - c, free := false)
    && (forall x :: x in bs' && x != c ==> bs'[x] == bs[x])
  }

  lemma JoinedRight(bs: Blocks, b: int)
    requires Shaped(bs) && b in bs && !bs[b].free
    ensures Joined(bs, MergedRight(bs, b), b, MergeEnd(bs, b))
    ensures FreeKeys(MergedRight(bs, b)) <= FreeKeys(bs)
  {
    if AbsorbsRight(bs, b) { Around(bs, b + bs[b].size); }
    Around(bs, b);
  }

  lemma JoinedLeft(bs: Blocks, bs1: Blocks, b: int, e: int)
    requires Shaped(bs) && b in bs && LeftOK(bs, b) && Joined(bs, bs1, b, e)
    ensures b in bs1 && MergeStart(bs1, b) == MergeStart(bs, b) && LeftOK(bs1, b)
    ensures Joined(bs, MergedLeft(bs1, b), MergeStart(bs, b), e)
  {
    Around(bs, MergeStart(bs, b));
    Around(bs, b);
    var c := MergeStart(bs, b);
    assert AbsorbedByLeft(bs1, b) == AbsorbedByLeft(bs, b);
    if c != b {
      forall x | x in bs && c < x < e
        ensures x >= b
      {}
    }
  }

  lemma JoinedRelinked(bs: Blocks, bs': Blocks, c: int, e: int)
    requires Joined(bs, bs', c, e)
    ensures Relinked(bs', c) == SetFree(Merge(bs, c, e), c, false)
  {
    var r, r' := Relinked(bs', c), SetFree(Merge(bs, c, e), c, false);
    forall x
      ensures x in r <==> x in r'
      ensures x in r ==> r[x] == r'[x]
    {}
  }

  lemma JoinedFree(bs: Blocks, bs': Blocks, c: int, e: int)
    requires Joined(bs, bs', c, e)
    ensures FreeKeys(bs') <= FreeKeys(bs) && bs'.Keys <= bs.Keys
  {
    forall x | x in bs'.Keys
      ensures x in bs.Keys && (bs'[x].free ==> bs[x].free)
    {
      assert x in bs';
    }
  }

  lemma JoinedNext(bs: Blocks, bs': Blocks, c: int, e: int)
    requires Joined(bs, bs', c, e) && BlockRange(bs, c, e)
    ensures !Last(c, bs'[c]) ==> c + bs'[c].size in bs'
  {}

  /** Whether the merged block was marked free on the way makes no difference. */
  lemma SettleIgnoresFlag(l: Layout, m: Blocks, c: int)
    requires c in m
    ensures Settle(l.(blocks := SetFree(m, c, false)), c) == Settle(l.(blocks := m), c)
  {
    assert SetFree(SetFree(m, c, false), c, true) == SetFree(m, c, true);
    assert SetFree(m, c, false) - {c} == m - {c};
  }

  lemma DropAgrees(m: Mem, heads: seq<nat>, chains: seq<seq<int>>, blocks: Blocks, b: int)
    requires Agree(m, heads, chains, blocks) && b in blocks && !blocks[b].free
    ensures Agree(m, heads, chains, blocks - {b})
  {
    forall x | x in blocks - {b}
      ensures Granular((blocks - {b})[x])
    {
      assert Granular(blocks[x]);
    }
    forall x, y | x in blocks - {b} && y in blocks - {b} && x < y
      ensures Before(blocks - {b}, x, y)
    {
      assert Before(blocks, x, y);
    }
    RetagAgrees(m, m, heads, chains, blocks, blocks - {b}, {});
  }

  /** One step of the search for s in the segment vector. */
  lemma EraseStep(segs: seq<int>, s: int, i: int)
    requires 0 <= i < |segs|
    ensures segs[..i] + Erase(segs[i..], s) ==
            if segs[i] == s then segs[..i] + segs[i + 1..] else segs[..i + 1] + Erase(segs[i + 1..], s)
  {
    assert segs[i..][0] == segs[i] && segs[i..][1..] == segs[i + 1..];
    if segs[i] != s {
      Regroup(segs[..i], segs[i], Erase(segs[i + 1..], s));
      assert segs[..i + 1] == segs[..i] + [segs[i]];
    }
  }

  lemma Regroup(a: seq<int>, x: int, b: seq<int>)
    ensures a + ([x] + b) == (a + [x]) + b
  {}

  /** Extending the tag of left over right. */
  lemma AbsorbAgrees(m: Mem, heads: seq<nat>, chains: seq<seq<int>>, blocks: Blocks, left: int, right: int)
    requires Agree(m, heads, chains, blocks) && Adjacent(blocks, left, right)
    requires !blocks[left].free && !blocks[right].free
    ensures var blocks' := Absorb(blocks, left, right);
            var m' := m[left := TagWord(left, blocks'[left])];
            Agree(m', heads, chains, blocks') && OnlyMeta(m, m', {left}, {})
  {
    var blocks' := Absorb(blocks, left, right);
    var m' := m[left := TagWord(left, blocks'[left])];
    AbsorbKeepsShape(blocks, left, right);
    assert TagOK(m, left, blocks[left]);
    RetagAgrees(m, m', heads, chains, blocks, blocks', {left});
  }

  /** The tag words setSize and setFlag produce on the way. */
  lemma AbsorbWord(blocks: Blocks, left: int, right: int)
    requires Shaped(blocks) && Adjacent(blocks, left, right)
    ensures var k, n := blocks[left], blocks[right];
            TagSetFlag(TagSetSize(TagWord(left, k), k.size + n.size), LAST_FLAG, Last(right, n)) ==
            TagWord(left, Absorb(blocks, left, right)[left])
  {
    var k, n := blocks[left], blocks[right];
    assert Granular(blocks[left]) && Granular(blocks[right]);
    PackedSetSize(k.size, k.free, First(left, k), Last(left, k), k.size + n.size);
    PackedSetFlag(k.size + n.size, k.free, First(left, k), Last(left, k), Last(right, n));
  }

  lemma RelinkAgrees(m: Mem, heads: seq<nat>, chains: seq<seq<int>>, blocks: Blocks, n: int, size: nat)
    requires Agree(m, heads, chains, blocks) && n in blocks
    ensures Agree(m[n + 8 := size], heads, chains, SetPrev(blocks, n, size, true))
    ensures OnlyMeta(m, m[n + 8 := size], {n}, {})
  {
    var blocks' := SetPrev(blocks, n, size, true);
    forall x | x in blocks'
      ensures Granular(blocks'[x])
    {
      assert Granular(blocks[x]);
    }
    forall x, y | x in blocks' && y in blocks' && x < y
      ensures Before(blocks', x, y)
    {
      assert Before(blocks, x, y);
    }
    assert TagOK(m, n, blocks[n]);
    RetagAgrees(m, m[n + 8 := size], heads, chains, blocks, blocks', {n});
  }

  // ------------------------------------------------------------------- splitting

  /** b cut after total bytes, before the rest is put into its bin. */
  function SplitTaken(bs: Blocks, b: int, total: nat): Blocks
    requires b in bs && total + MIN_BLOCK_SIZE <= bs[b].size
  {
    var cut := Split(bs, b, total);
    if b + total in cut then SetFree(cut, b + total, false) else cut
  }

  /** The words of the cut. */
  function SplitWords(m: Mem, bs: Blocks, b: int, total: nat): Mem
    requires b in bs && total + MIN_BLOCK_SIZE <= bs[b].size
  {
    var k := bs[b];
    var rest, remainder := b + total, k.size - total;
    var m1 := m[rest := Pack(remainder, false, false, Last(b, k))][rest + 8 := total]
               [b := Pack(total, k.free, First(b, k), false)];
    if Last(b, k) then m1 else m1[b + k.size + 8 := remainder]
  }

  function SplitTags(bs: Blocks, b: int, total: nat): set<int>
    requires b in bs
  {
    var k := bs[b];
    {b, b + total} + (if Last(b, k) then {} else {b + k.size})
  }

  lemma SplitAgrees(m: Mem, heads: seq<nat>, chains: seq<seq<int>>, bs: Blocks, b: int, total: nat)
    requires Agree(m, heads, chains, bs) && Cuttable(bs, b, total) && !bs[b].free && RightOK(bs, b)
    ensures var bs' := SplitTaken(bs, b, total);
            && b + total in bs' && !bs'[b + total].free
            && Agree(SplitWords(m, bs, b, total), heads, chains, bs')
            && OnlyMeta(m, SplitWords(m, bs, b, total), SplitTags(bs, b, total), {})
  {
    var bs', m', tags := SplitTaken(bs, b, total), SplitWords(m, bs, b, total), SplitTags(bs, b, total);
    SplitKeepsShape(bs, b, total);
    GeometryKeepsShape(Split(bs, b, total), bs');
    assert TagOK(m, b, bs[b]);
    if !Last(b, bs[b]) { assert TagOK(m, b + bs[b].size, bs[b + bs[b].size]); }
    SplitTagsOK(m, bs, b, total);
    SplitTouches(m, bs, b, total);
    SplitSameFree(bs, b, total);
    RetagAgrees(m, m', heads, chains, bs, bs', tags);
  }

  /** The tag words that splitBlock stores, and what is read back from the rest. */
  ghost predicate SplitTagFacts(word: nat, b: int, k: Blk, total: nat) {
    total <= k.size &&
    var restWord := TagSetFlag(TagSetSize(0, k.size - total), LAST_FLAG, Last(b, k));
    && restWord == Pack(k.size - total, false, false, Last(b, k))
    && TagSetFlag(TagSetSize(word, total), LAST_FLAG, false) == Pack(total, k.free, First(b, k), false)
    && TagSize(restWord) == k.size - total
    && TagHas(restWord, LAST_FLAG) == Last(b, k)
  }

  lemma SplitTagWords(m: Mem, bs: Blocks, b: int, total: nat)
    requires Shaped(bs) && TagsOK(m, bs) && Cuttable(bs, b, total)
    ensures SplitTagFacts(Word(m, b), b, bs[b], total)
  {
    var k := bs[b];
    assert TagOK(m, b, bs[b]) && Granular(bs[b]);
    PackedSetSize(0, false, false, false, k.size - total);
    PackedSetFlag(k.size - total, false, false, false, Last(b, k));
    PackedReads(k.size - total, false, false, Last(b, k));
    PackedSetSize(k.size, k.free, First(b, k), Last(b, k), total);
    PackedSetFlag(total, k.free, First(b, k), Last(b, k), false);
  }

  lemma SplitTouches(m: Mem, bs: Blocks, b: int, total: nat)
    requires Cuttable(bs, b, total)
    ensures OnlyMeta(m, SplitWords(m, bs, b, total), SplitTags(bs, b, total), {})
  {}

  lemma SplitTagsOK(m: Mem, bs: Blocks, b: int, total: nat)
    requires Shaped(bs) && Cuttable(bs, b, total) && !bs[b].free && RightOK(bs, b) && TagOK(m, b, bs[b])
    requires !Last(b, bs[b]) ==> TagOK(m, b + bs[b].size, bs[b + bs[b].size])
    ensures var bs', m' := SplitTaken(bs, b, total), SplitWords(m, bs, b, total);
            && SplitTags(bs, b, total) <= bs'.Keys
            && (forall c :: c in SplitTags(bs, b, total) ==> TagOK(m', c, bs'[c]))
  {
    Around(bs, b);
    SplitHeadOK(m, bs, b, total);
    SplitRestOK(m, bs, b, total);
    if !Last(b, bs[b]) { SplitNextOK(m, bs, b, total); }
  }

  lemma SplitHeadOK(m: Mem, bs: Blocks, b: int, total: nat)
    requires Cuttable(bs, b, total) && InSegment(b, bs[b]) && !bs[b].free && TagOK(m, b, bs[b])
    ensures var bs' := SplitTaken(bs, b, total); b in bs' && TagOK(SplitWords(m, bs, b, total), b, bs'[b])
  {}

  lemma SplitRestOK(m: Mem, bs: Blocks, b: int, total: nat)
    requires Cuttable(bs, b, total) && InSegment(b, bs[b]) && b + total !in bs
    ensures var bs' := SplitTaken(bs, b, total);
            b + total in bs' && TagOK(SplitWords(m, bs, b, total), b + total, bs'[b + total])
  {}

  lemma SplitNextOK(m: Mem, bs: Blocks, b: int, total: nat)
    requires Cuttable(bs, b, total) && b + total !in bs && !Last(b, bs[b]) && RightOK(bs, b)
    requires TagOK(m, b + bs[b].size, bs[b + bs[b].size])
    ensures var bs', n := SplitTaken(bs, b, total), b + bs[b].size;
            n in bs' && TagOK(SplitWords(m, bs, b, total), n, bs'[n])
  {}

  lemma SplitSameFree(bs: Blocks, b: int, total: nat)
    requires Shaped(bs) && Cuttable(bs, b, total) && !bs[b].free
    ensures SameFree(bs, SplitTaken(bs, b, total))
    ensures forall c :: c in SplitTaken(bs, b, total) && c !in SplitTags(bs, b, total) ==>
              c in bs && bs[c] == SplitTaken(bs, b, total)[c]
  {
    Around(bs, b);
    assert b + total !in bs;
  }

  /** Marking the rest free completes the split, whatever flag b had. */
  lemma SplitDone(bs: Blocks, b: int, total: nat)
    requires Shaped(bs) && Cuttable(bs, b, total)
    ensures var bs' := SplitTaken(SetFree(bs, b, false), b, total);
            b + total in bs' && SetFree(bs', b + total, true) == Split(bs, b, total)
  {}

  // ------------------------------------------------------------------- searching

  /** No block among the first k of q is large enough. */
  ghost predicate NoneFits(blocks: Blocks, q: seq<int>, k: int, total: nat) {
    forall x :: 0 <= x < k && x < |q| ==> q[x] in blocks && blocks[q[x]].size < total
  }

  /** The k-th block of bin i is the first fitting one, in the order of the bins from
      the request's own bin upward and of the blocks inside a bin. */
  ghost predicate FirstFit(blocks: Blocks, chains: seq<seq<int>>, total: nat, i: int, k: int) {
    && BinIndex(total) <= i < |chains| && 0 <= k < |chains[i]|
    && chains[i][k] in blocks && blocks[chains[i][k]].size >= total
    && NoneFits(blocks, chains[i], k, total)
    && forall j {:trigger chains[j]} :: BinIndex(total) <= j < i ==> NoneFits(blocks, chains[j], |chains[j]|, total)
  }

  /** b is where the search ends. */
  ghost predicate FoundFirst(blocks: Blocks, chains: seq<seq<int>>, total: nat, b: int) {
    exists i, k :: FirstFit(blocks, chains, total, i, k) && chains[i][k] == b
  }

  /** c is first in the bin of its size. */
  ghost predicate Leads(blocks: Blocks, chains: seq<seq<int>>, c: int) {
    && c in blocks && BinIndex(blocks[c].size) < |chains|
    && chains[BinIndex(blocks[c].size)] != [] && chains[BinIndex(blocks[c].size)][0] == c
  }

  /** A fitting free block is listed in a bin that the search reaches. */
  lemma FitIsListed(m: Mem, heads: seq<nat>, chains: seq<seq<int>>, blocks: Blocks, total: nat, x: int)
    returns (i: int, k: int)
    requires Agree(m, heads, chains, blocks) && x in blocks && blocks[x].free && total <= blocks[x].size
    ensures BinIndex(total) <= i < BIN_COUNT && i == BinIndex(blocks[x].size)
    ensures 0 <= k < |chains[i]| && chains[i][k] == x
  {
    i := BinIndex(blocks[x].size);
    BinIndexMonotone(total, blocks[x].size);
    k :| 0 <= k < |chains[i]| && chains[i][k] == x;
  }

  lemma NothingFits(m: Mem, heads: seq<nat>, chains: seq<seq<int>>, blocks: Blocks, total: nat)
    requires Agree(m, heads, chains, blocks)
    requires forall j {:trigger chains[j]} :: BinIndex(total) <= j < BIN_COUNT ==>
               NoneFits(blocks, chains[j], |chains[j]|, total)
    ensures forall x :: x in blocks && blocks[x].free ==> blocks[x].size < total
  {
    forall x | x in blocks && blocks[x].free
      ensures blocks[x].size < total
    {
      if total <= blocks[x].size {
        var i, k := FitIsListed(m, heads, chains, blocks, total, x);
      }
    }
  }

  /** The first fit is less than twice as large as any block that fits. */
  lemma FirstFitWithinTwice(m: Mem, heads: seq<nat>, chains: seq<seq<int>>, blocks: Blocks,
                            total: nat, i: int, k: int, x: int)
    requires Agree(m, heads, chains, blocks) && FirstFit(blocks, chains, total, i, k)
    requires x in blocks && blocks[x].free && total <= blocks[x].size
    ensures blocks[chains[i][k]].size < 2 * blocks[x].size
  {
    var j, y := FitIsListed(m, heads, chains, blocks, total, x);
    var b := chains[i][k];
    assert BinOK(m, heads[i], chains[i], blocks, i);
    assert InBin(blocks, chains[i][k], i);
    if j == i {
      SameBinWithinTwice(blocks[b].size, blocks[x].size);
    } else if i < j && blocks[x].size < blocks[b].size {
      BinIndexMonotone(blocks[x].size, blocks[b].size);
    }
  }

  // ------------------------------------------------------------------- allocating

  lemma AddAgrees(m: Mem, heads: seq<nat>, chains: seq<seq<int>>, blocks: Blocks, base: int)
    requires Agree(m, heads, chains, blocks) && base > 0
    requires forall x :: x in blocks ==> base + SEGMENT_SIZE <= x || x + blocks[x].size <= base
    ensures var blocks' := blocks[base := Blk(SEGMENT_SIZE, 0, false, base)];
            var m' := m[base := Pack(SEGMENT_SIZE, false, true, true)][base + 8 := 0];
            Agree(m', heads, chains, blocks') && OnlyMeta(m, m', {base}, {})
  {
    var blocks' := blocks[base := Blk(SEGMENT_SIZE, 0, false, base)];
    var m' := m[base := Pack(SEGMENT_SIZE, false, true, true)][base + 8 := 0];
    AddKeepsShape(blocks, base);
    GeometryKeepsShape(Added(blocks, base), blocks');
    RetagAgrees(m, m', heads, chains, blocks, blocks', {base});
  }

  lemma AddWord()
    ensures TagSetFlag(TagSetFlag(TagSetSize(0, SEGMENT_SIZE), FIRST_FLAG, true), LAST_FLAG, true) ==
            Pack(SEGMENT_SIZE, false, true, true)
  {
    PackedSetSize(0, false, false, false, SEGMENT_SIZE);
    PackedSetFlag(SEGMENT_SIZE, false, false, false, true);
    PackedSetFlag(SEGMENT_SIZE, false, true, false, true);
  }

  lemma FreshFromSystem(l: Layout, mapped: map<int, nat>, base: int)
    requires Tiled(l) && Fresh(mapped, base, SEGMENT_SIZE)
    requires forall s :: s in l.segs ==> s in mapped && mapped[s] == SEGMENT_SIZE
    ensures FreshBase(l, base) && base !in l.blocks
    ensures forall x :: x in l.blocks ==> base + SEGMENT_SIZE <= x || x + l.blocks[x].size <= base
  {
    assert Opened(l, 0);
    forall s | s in l.segs
      ensures base + SEGMENT_SIZE <= s || s + SEGMENT_SIZE <= base
    {
      assert s in mapped;
    }
    forall x | x in l.blocks
      ensures base + SEGMENT_SIZE <= x || x + l.blocks[x].size <= base
    {
      FreshApart(l, base, x);
    }
  }

  /** Removing b from its bin and splitting it is AllocAt. */
  lemma TakeSteps(l: Layout, b: int, total: nat)
    requires Shaped(l.blocks) && FreeFit(l, b, total) && Request(total)
    ensures var bs := SetFree(l.blocks, b, false);
            AllocAt(l, b, total).blocks ==
            if bs[b].size - total < MIN_BLOCK_SIZE then bs else Split(bs, b, total)
  {
    var bs := SetFree(l.blocks, b, false);
    if l.blocks[b].size - total >= MIN_BLOCK_SIZE {
      var r, r' := Split(bs, b, total), Split(l.blocks, b, total);
      forall x
        ensures x in r <==> x in r'
        ensures x in r ==> r[x] == r'[x]
      {}
    }
  }

  /** The words from lo up to hi are the same. */
  ghost predicate Untouched(m: Mem, m': Mem, lo: int, hi: int) {
    forall a :: lo <= a < hi ==> Word(m', a) == Word(m, a)
  }

  /** The heap l' serves a request for total bytes with block b: an existing free block
      less than twice as large as any other that fits, or, when none fits, a block of a
      segment mapped for it. */
  ghost predicate Granted(l: Layout, l': Layout, b: int, total: nat) {
    || (&& FreeFit(l, b, total) && l' == AllocAt(l, b, total)
        && forall x :: FreeFit(l, x, total) ==> l.blocks[b].size < 2 * l.blocks[x].size)
    || (&& (forall x :: !FreeFit(l, x, total)) && FreshBase(l, b) && total <= SEGMENT_SIZE
        && l' == AllocAt(AddSegment(l, b), b, total))
  }

  /** What an operation wrote, seen from a block that is live before and after. */
  lemma LivePayloadKept(m: Mem, m': Mem, bs: Blocks, bs': Blocks, nodes: set<int>, c: int)
    requires Shaped(bs) && Shaped(bs') && c in bs && c in bs' && bs[c].size == bs'[c].size
    requires OnlyMeta(m, m', bs.Keys + bs'.Keys, nodes) && c !in nodes && nodes <= bs.Keys + bs'.Keys
    ensures Untouched(m, m', c + BLOCK_HEADER_SIZE, c + bs[c].size)
  {
    Around(bs, c);
    Around(bs', c);
    forall a | c + BLOCK_HEADER_SIZE <= a < c + bs[c].size
      ensures !Meta(bs.Keys + bs'.Keys, nodes, a)
    {
      if a in bs {}
    }
  }

  // -------------------------------------------------------------------- requests

  /** The block size allocate(bytes) asks for; size_t arithmetic wraps. */
  function RoundedTotal(bytes: nat): nat {
    var total := (AlignUp(bytes, 16) + BLOCK_HEADER_SIZE) % WORD;
    if total < MIN_BLOCK_SIZE then MIN_BLOCK_SIZE else total
  }

  lemma SixteenIsPower()
    ensures IsPowerOfTwo(16)
  {
    PowerPassesMask(4);
    assert Pow2(4) == 16;
  }

  /** The rounded total is a multiple of 16 that holds the request and its header, and
      the least such size unless that is below the least block. */
  lemma RoundedTotalExact(bytes: nat)
    requires bytes + 32 <= WORD
    ensures bytes + BLOCK_HEADER_SIZE <= RoundedTotal(bytes)
    ensures RoundedTotal(bytes) % 16 == 0 && MIN_BLOCK_SIZE <= RoundedTotal(bytes)
    ensures RoundedTotal(bytes) == MIN_BLOCK_SIZE || RoundedTotal(bytes) < bytes + 32
  {
    SixteenIsPower();
    AlignUpExact(bytes, 16);
  }

  /** Exactly the top 31 sizes wrap, and then the heap would hand out a least block. */
  lemma RoundedTotalWraps(bytes: nat)
    requires bytes < WORD
    ensures RoundedTotal(bytes) >= bytes + BLOCK_HEADER_SIZE <==> bytes + 32 <= WORD
    ensures bytes + 32 > WORD ==> RoundedTotal(bytes) == MIN_BLOCK_SIZE
  {
    if bytes + 32 <= WORD {
      RoundedTotalExact(bytes);
    } else if bytes + 16 <= WORD {
      SixteenIsPower();
      AlignUpExact(bytes, 16);
      MultiplesApart(AlignUp(bytes, 16), WORD - 16, 16);
    } else {
      WrappedAlign(bytes);
    }
  }

  lemma RoundedIsRequest(bytes: nat)
    requires bytes < WORD && RoundedTotal(bytes) <= SEGMENT_SIZE
    ensures Request(RoundedTotal(bytes))
  {
    RoundedTotalWraps(bytes);
    if bytes + 32 <= WORD { RoundedTotalExact(bytes); }
  }

  lemma WrappedAlign(bytes: nat)
    requires WORD < bytes + 16 && bytes < WORD
    ensures AlignUp(bytes, 16) == 0
  {
    var w := WordWidth();
    var s := bytes + 15 - WORD;
    FlagPowers();
    FourBelow(w);
    ComplementIsBitwise(15, w);
    AndHighMask(s, 4, w);
    assert (bytes + 16 - 1) % WORD == s;
  }

  lemma TakenFrame(l: Layout, l': Layout, b: int, h: Held, m: Mem, m': Mem)
    requires Shaped(l.blocks) && WellFormed(l') && b !in Live(l)
    requires Live(l') == Live(l)[b := h]
    requires OnlyMeta(m, m', l.blocks.Keys + l'.blocks.Keys, FreeKeys(l.blocks) + FreeKeys(l'.blocks))
    ensures forall c :: IsLive(l, c) ==> Untouched(m, m', c + BLOCK_HEADER_SIZE, c + l.blocks[c].size)
  {
    assert Opened(l', 0);
    forall c | IsLive(l, c)
      ensures Untouched(m, m', c + BLOCK_HEADER_SIZE, c + l.blocks[c].size)
    {
      assert c in Live(l) && c in Live(l') && Live(l')[c] == Live(l)[c];
      LivePayloadKept(m, m', l.blocks, l'.blocks, FreeKeys(l.blocks) + FreeKeys(l'.blocks), c);
    }
  }

  /** The blocks of bs' that were not live in bs. */
  ghost function NotHeld(bs: Blocks, bs': Blocks): set<int> {
    set b | b in bs' && !(b in bs && !bs[b].free)
  }

  lemma AllocGrows(l: Layout, b: int, total: nat)
    requires FreeFit(l, b, total)
    ensures l.blocks.Keys <= AllocAt(l, b, total).blocks.Keys
  {}

  /** What an allocation writes: tags, and nodes of blocks that were not live. */
  lemma TakenMeta(l: Layout, l': Layout, b: int, h: Held, m: Mem, m': Mem)
    requires l.blocks.Keys <= l'.blocks.Keys && Live(l') == Live(l)[b := h]
    requires OnlyMeta(m, m', l.blocks.Keys + l'.blocks.Keys, FreeKeys(l.blocks) + FreeKeys(l'.blocks))
    ensures OnlyMeta(m, m', l'.blocks.Keys, NotHeld(l.blocks, l'.blocks))
  {
    var nodes := FreeKeys(l.blocks) + FreeKeys(l'.blocks);
    forall x | x in nodes
      ensures x in NotHeld(l.blocks, l'.blocks)
    {
      assert x in l'.blocks;
      assert x in Live(l) ==> x in Live(l');
    }
    OnlyMetaWeaken(m, m', l.blocks.Keys + l'.blocks.Keys, nodes, l'.blocks.Keys, NotHeld(l.blocks, l'.blocks));
  }

  lemma FreshMeta(l: Layout, base: int, l': Layout, h: Held, m0: Mem, m1: Mem, m2: Mem)
    requires base !in l.blocks && Added(l.blocks, base).Keys <= l'.blocks.Keys && Live(l') == Live(l)[base := h]
    requires OnlyMeta(m0, m1, {base}, FreeKeys(l.blocks) + {base})
    requires var bs := Added(l.blocks, base);
             OnlyMeta(m1, m2, bs.Keys + l'.blocks.Keys, FreeKeys(bs) + FreeKeys(l'.blocks))
    ensures OnlyMeta(m0, m2, l'.blocks.Keys, NotHeld(l.blocks, l'.blocks))
  {
    var bs, nodes := Added(l.blocks, base), NotHeld(l.blocks, l'.blocks);
    assert bs.Keys == l.blocks.Keys + {base} && FreeKeys(bs) == FreeKeys(l.blocks) + {base};
    forall x | x in FreeKeys(bs) + FreeKeys(l'.blocks)
      ensures x in nodes
    {
      assert x in l'.blocks;
      assert x in Live(l) ==> x in Live(l');
    }
    OnlyMetaWeaken(m0, m1, {base}, FreeKeys(l.blocks) + {base}, l'.blocks.Keys, nodes);
    OnlyMetaWeaken(m1, m2, bs.Keys + l'.blocks.Keys, FreeKeys(bs) + FreeKeys(l'.blocks), l'.blocks.Keys, nodes);
    OnlyMetaTrans(m0, m1, m2, l'.blocks.Keys, nodes);
  }

  lemma FreshFrame(l: Layout, base: int, l': Layout, h: Held, m0: Mem, m1: Mem, m2: Mem)
    requires Shaped(l.blocks) && WellFormed(l') && base !in l.blocks && base in l'.blocks
    requires Live(l') == Live(l)[base := h]
    requires OnlyMeta(m0, m1, {base}, FreeKeys(l.blocks) + {base})
    requires var bs := Added(l.blocks, base);
             OnlyMeta(m1, m2, bs.Keys + l'.blocks.Keys, FreeKeys(bs) + FreeKeys(l'.blocks))
    ensures forall c :: IsLive(l, c) ==> Untouched(m0, m2, c + BLOCK_HEADER_SIZE, c + l.blocks[c].size)
  {
    assert Opened(l', 0);
    var bs, bs' := Added(l.blocks, base), l'.blocks;
    var tags, nodes := l.blocks.Keys + bs'.Keys, FreeKeys(l.blocks) + {base} + FreeKeys(bs');
    assert bs.Keys == l.blocks.Keys + {base} && FreeKeys(bs) == FreeKeys(l.blocks) + {base};
    OnlyMetaWeaken(m0, m1, {base}, FreeKeys(l.blocks) + {base}, tags, nodes);
    OnlyMetaWeaken(m1, m2, bs.Keys + bs'.Keys, FreeKeys(bs) + FreeKeys(bs'), tags, nodes);
    OnlyMetaTrans(m0, m1, m2, tags, nodes);
    forall c | IsLive(l, c)
      ensures Untouched(m0, m2, c + BLOCK_HEADER_SIZE, c + l.blocks[c].size)
    {
      assert c in Live(l) && c in Live(l') && Live(l')[c] == Live(l)[c];
      LivePayloadKept(m0, m2, l.blocks, bs', nodes, c);
    }
  }

  lemma TakeFrame(bs: Blocks, b: int, bs1: Blocks, bs2: Blocks, m0: Mem, m1: Mem, m2: Mem)
    requires b in bs && bs[b].free && bs1 == SetFree(bs, b, false)
    requires OnlyMeta(m0, m1, {b}, FreeKeys(bs))
    requires OnlyMeta(m1, m2, bs1.Keys + bs2.Keys, FreeKeys(bs1) + FreeKeys(bs2))
    ensures OnlyMeta(m0, m2, bs.Keys + bs2.Keys, FreeKeys(bs) + FreeKeys(bs2))
  {
    var tags, nodes := bs.Keys + bs2.Keys, FreeKeys(bs) + FreeKeys(bs2);
    assert bs1.Keys == bs.Keys && FreeKeys(bs1) <= FreeKeys(bs);
    OnlyMetaWeaken(m0, m1, {b}, FreeKeys(bs), tags, nodes);
    OnlyMetaWeaken(m1, m2, bs1.Keys + bs2.Keys, FreeKeys(bs1) + FreeKeys(bs2), tags, nodes);
    OnlyMetaTrans(m0, m1, m2, tags, nodes);
  }

  lemma SplitFrame(bs: Blocks, b: int, total: nat, m0: Mem, m1: Mem, m2: Mem)
    requires Shaped(bs) && Cuttable(bs, b, total) && !bs[b].free && RightOK(bs, b)
    requires OnlyMeta(m0, m1, SplitTags(bs, b, total), {})
    requires OnlyMeta(m1, m2, {b + total}, FreeKeys(SplitTaken(bs, b, total)) + {b + total})
    ensures var bs' := Split(bs, b, total);
            OnlyMeta(m0, m2, bs.Keys + bs'.Keys, FreeKeys(bs) + FreeKeys(bs'))
  {
    var bs' := Split(bs, b, total);
    var tags, nodes := bs.Keys + bs'.Keys, FreeKeys(bs) + FreeKeys(bs');
    SplitSameFree(bs, b, total);
    forall x | x in FreeKeys(SplitTaken(bs, b, total))
      ensures x in nodes
    {}
    assert b + total in bs' && bs'[b + total].free;
    assert SplitTags(bs, b, total) <= tags;
    OnlyMetaWeaken(m0, m1, SplitTags(bs, b, total), {}, tags, nodes);
    OnlyMetaWeaken(m1, m2, {b + total}, FreeKeys(SplitTaken(bs, b, total)) + {b + total}, tags, nodes);
    OnlyMetaTrans(m0, m1, m2, tags, nodes);
  }

  lemma GrowFrame(bs: Blocks, keys: set<int>, m0: Mem, m2: Mem, m3: Mem)
    requires keys <= bs.Keys
    requires OnlyMeta(m0, m2, bs.Keys, FreeKeys(bs)) && OnlyMeta(m2, m3, keys, {})
    ensures OnlyMeta(m0, m3, bs.Keys, FreeKeys(bs))
  {
    OnlyMetaWeaken(m2, m3, keys, {}, bs.Keys, FreeKeys(bs));
    OnlyMetaTrans(m0, m2, m3, bs.Keys, FreeKeys(bs));
  }

  /** The blocks whose nodes freeing b may write: the free ones, and b itself if it is
      still a block afterwards. */
  ghost function FreedNodes(l: Layout, b: int): set<int>
    requires b in l.blocks && l.blocks[b].size > 0
  {
    FreeKeys(l.blocks) + (if b in FreeAt(l, b).blocks then {b} else {})
  }

  /** b is still a block after it was freed if and only if it is not absorbed by its left
      neighbour and its segment is not given back. */
  lemma StaysWhenFreed(l: Layout, b: int)
    requires WellFormed(l) && IsLive(l, b)
    ensures l.blocks[b].size > 0
    ensures b in FreeAt(l, b).blocks <==> MergeStart(l.blocks, b) == b && FreeAt(l, b).segs == l.segs
  {
    assert Opened(l, 0);
    var c, e := MergeStart(l.blocks, b), MergeEnd(l.blocks, b);
    FreeRange(l.blocks, b);
    assert c in l.blocks && l.blocks[c].home in l.segs;
    if Whole(c, Merge(l.blocks, c, e)[c]) && |l.segs| > 1 {
      EraseMembers(l.segs, c);
    }
  }

  lemma FrameLast(l: Layout, bs3: Blocks, b: int, c: int, m0: Mem, m3: Mem, m4: Mem)
    requires b in l.blocks && l.blocks[b].size > 0 && c == MergeStart(l.blocks, b) && c < MergeEnd(l.blocks, b)
    requires bs3 == SetFree(Merge(l.blocks, c, MergeEnd(l.blocks, b)), c, false)
    requires OnlyMeta(m0, m3, l.blocks.Keys, FreeKeys(l.blocks))
    requires if c in FreeAt(l, b).blocks then OnlyMeta(m3, m4, {c}, FreeKeys(bs3) + {c}) else m4 == m3
    ensures OnlyMeta(m0, m4, l.blocks.Keys, FreedNodes(l, b))
  {
    var tags, nodes := l.blocks.Keys, FreedNodes(l, b);
    OnlyMetaWeaken(m0, m3, tags, FreeKeys(l.blocks), tags, nodes);
    if c in FreeAt(l, b).blocks {
      assert {c} <= tags && FreeKeys(bs3) + {c} <= nodes;
      OnlyMetaWeaken(m3, m4, {c}, FreeKeys(bs3) + {c}, tags, nodes);
      OnlyMetaTrans(m0, m3, m4, tags, nodes);
    }
  }

  /** Both words of the node of b are links: empty, or the node of another block. */
  ghost predicate NodeLinks(m: Mem, blocks: Blocks, b: int) {
    IsLink(blocks, Word(m, b + 32)) && IsLink(blocks, Word(m, b + 40))
  }

  ghost predicate IsLink(blocks: Blocks, w: nat) {
    w == 0 || (w - 32 in blocks && blocks[w - 32].free)
  }

  lemma FreeHasLinks(m: Mem, heads: seq<nat>, chains: seq<seq<int>>, blocks: Blocks, b: int)
    requires Agree(m, heads, chains, blocks) && b in blocks && blocks[b].free
    ensures NodeLinks(m, blocks, b)
  {
    var i := BinIndex(blocks[b].size);
    assert BinOK(m, heads[i], chains[i], blocks, i);
    var k :| 0 <= k < |chains[i]| && chains[i][k] == b;
    assert LinkOK(m, chains[i], k);
    if k > 0 { assert InBin(blocks, chains[i][k - 1], i); }
    if k + 1 < |chains[i]| { assert InBin(blocks, chains[i][k + 1], i); }
  }

  lemma FreedIsFree(l: Layout, b: int)
    requires WellFormed(l) && IsLive(l, b) && l.blocks[b].size > 0 && b in FreeAt(l, b).blocks
    ensures FreeAt(l, b).blocks[b].free
  {
    FreeKeepsWellFormed(l, b);
    assert b !in Live(FreeAt(l, b));
  }

  /** A block that is swallowed when it is freed keeps its whole payload. */
  lemma SwallowedKept(l: Layout, b: int, m: Mem, m': Mem)
    requires Shaped(l.blocks) && IsLive(l, b) && l.blocks[b].size > 0 && b !in FreeAt(l, b).blocks
    requires OnlyMeta(m, m', l.blocks.Keys, FreedNodes(l, b))
    ensures Untouched(m, m', b + BLOCK_HEADER_SIZE, b + l.blocks[b].size)
  {
    assert l.blocks.Keys + l.blocks.Keys == l.blocks.Keys;
    LivePayloadKept(m, m', l.blocks, l.blocks, FreedNodes(l, b), b);
  }

  /** Linking in front of a bin does not touch the tag word of b. */
  lemma HeadAway(m: Mem, heads: seq<nat>, chains: seq<seq<int>>, blocks: Blocks, b: int)
    requires Agree(m, heads, chains, blocks) && b in blocks && !blocks[b].free
    ensures Word(LinkFront(m, b, heads[BinIndex(blocks[b].size)]), b) == Word(m, b)
  {
    Around(blocks, b);
    var i := BinIndex(blocks[b].size);
    assert BinOK(m, heads[i], chains[i], blocks, i);
    if chains[i] != [] { assert InBin(blocks, chains[i][0], i); }
  }

  /** Unlinking does not touch the tag word of b. */
  lemma NodeAway(m: Mem, heads: seq<nat>, chains: seq<seq<int>>, blocks: Blocks, b: int, k: int)
    requires Agree(m, heads, chains, blocks) && b in blocks && blocks[b].free
    requires var p := chains[BinIndex(blocks[b].size)]; 0 <= k < |p| && p[k] == b
    ensures Word(Unlink(m, b), b) == Word(m, b)
  {
    Around(blocks, b);
    var i := BinIndex(blocks[b].size);
    var p := chains[i];
    assert BinOK(m, heads[i], p, blocks, i);
    assert LinkOK(m, p, k);
    if k > 0 { assert InBin(blocks, p[k - 1], i); }
    if k + 1 < |p| { assert InBin(blocks, p[k + 1], i); }
  }

  /** No other block starts within 48 bytes of c: its header slot is out of reach. */
  ghost predicate Clear(blocks: Blocks, c: int) {
    forall t :: t in blocks ==> t == c || t + MIN_BLOCK_SIZE <= c || c + MIN_BLOCK_SIZE <= t
  }

  lemma BlocksAreClear(blocks: Blocks, c: int)
    requires Shaped(blocks) && c in blocks
    ensures Clear(blocks, c)
  {
    Around(blocks, c);
  }

  lemma FreedFrame(l: Layout, b: int, m: Mem, m': Mem)
    requires Shaped(l.blocks) && b in l.blocks && l.blocks[b].size > 0
    requires OnlyMeta(m, m', l.blocks.Keys, FreedNodes(l, b))
    ensures forall c :: IsLive(l, c) && c != b ==>
              Untouched(m, m', c + BLOCK_HEADER_SIZE, c + l.blocks[c].size)
    ensures forall c :: Clear(l.blocks, c) ==>
              Clear(FreeAt(l, b).blocks, c) && Untouched(m, m', c + BLOCK_HEADER_SIZE, c + NODE_OFFSET)
  {
    var bs, nodes := l.blocks, FreedNodes(l, b);
    assert bs.Keys + bs.Keys == bs.Keys;
    forall c | IsLive(l, c) && c != b
      ensures Untouched(m, m', c + BLOCK_HEADER_SIZE, c + bs[c].size)
    {
      LivePayloadKept(m, m', bs, bs, nodes, c);
    }
    forall c | Clear(bs, c)
      ensures Clear(FreeAt(l, b).blocks, c) && Untouched(m, m', c + BLOCK_HEADER_SIZE, c + NODE_OFFSET)
    {
      HeaderKept(m, m', bs, nodes, c);
    }
  }

  lemma HeaderKept(m: Mem, m': Mem, bs: Blocks, nodes: set<int>, c: int)
    requires Clear(bs, c) && nodes <= bs.Keys && OnlyMeta(m, m', bs.Keys, nodes)
    ensures Untouched(m, m', c + BLOCK_HEADER_SIZE, c + NODE_OFFSET)
  {
    forall a | c + BLOCK_HEADER_SIZE <= a < c + NODE_OFFSET
      ensures !Meta(bs.Keys, nodes, a)
    {
      assert a !in bs && a - 8 !in bs && a - 32 !in bs && a - 40 !in bs;
    }
  }

  // ------------------------------------------------------------------ fragmentation

  ghost function BinSet(blocks: Blocks, i: int): set<int> {
    set b | b in blocks && InBin(blocks, b, i)
  }

  ghost function BinsBelow(blocks: Blocks, i: int): set<int> {
    set b | b in blocks && blocks[b].free && BinIndex(blocks[b].size) < i
  }

  lemma BinsBelowNext(blocks: Blocks, i: int)
    ensures BinsBelow(blocks, i + 1) == BinsBelow(blocks, i) + BinSet(blocks, i)
  {}

  /** s and the first k blocks of a chain. */
  ghost function Visited(s: set<int>, q: seq<int>, k: int): set<int>
    requires 0 <= k <= |q|
  {
    s + set x | x in q[..k]
  }

  /** q lists blocks outside s, each once. */
  ghost predicate NewTo(blocks: Blocks, s: set<int>, q: seq<int>) {
    NoDup(q) && forall k :: 0 <= k < |q| ==> q[k] in blocks && q[k] !in s
  }

  lemma VisitNext(s: set<int>, q: seq<int>, k: int)
    requires NoDup(q) && 0 <= k < |q| && q[k] !in s
    ensures q[k] !in Visited(s, q, k)
    ensures Visited(s, q, k + 1) == Visited(s, q, k) + {q[k]}
  {
    assert q[..k + 1] == q[..k] + [q[k]];
  }

  lemma AllVisited(blocks: Blocks, chains: seq<seq<int>>, i: int)
    requires |chains| == BIN_COUNT && Complete(blocks, chains) && 0 <= i < BIN_COUNT && Listed(blocks, chains[i], i)
    ensures Visited(BinsBelow(blocks, i), chains[i], |chains[i]|) == BinsBelow(blocks, i) + BinSet(blocks, i)
  {
    var q := chains[i];
    assert q[..|q|] == q;
    forall x | x in q
      ensures x in BinSet(blocks, i)
    {
      var k :| 0 <= k < |q| && q[k] == x;
      assert InBin(blocks, q[k], i);
    }
    forall x | x in BinSet(blocks, i)
      ensures x in q
    {
      assert x in chains[BinIndex(blocks[x].size)];
    }
  }

  /** n is the largest size in s, and zero when s is empty. */
  ghost predicate IsLargest(blocks: Blocks, s: set<int>, n: nat) {
    && (forall b :: b in s && b in blocks ==> blocks[b].size <= n)
    && (n == 0 || exists b :: b in s && b in blocks && blocks[b].size == n)
  }

  /** The running total and maximum over the blocks of s. */
  ghost predicate Tally(blocks: Blocks, s: set<int>, total: nat, largest: nat) {
    total == Sum(s, Sizes(blocks)) && IsLargest(blocks, s, largest)
  }

  /** The tally of the bins below i. */
  ghost predicate Counted(blocks: Blocks, i: int, total: nat, largest: nat) {
    forall key {:trigger Opened(blocks, key)} :: Opened(blocks, key) ==>
      Tally(blocks, BinsBelow(blocks, i), total, largest)
  }

  lemma CountedNone(blocks: Blocks)
    ensures Counted(blocks, 0, 0, 0) == true
  {
    BinsBelowEnds(blocks);
  }

  function BlockSize(blocks: Blocks, b: int): nat {
    if b in blocks then blocks[b].size else 0
  }

  /** The sizes of the first k blocks of a chain, added up. */
  function ChainTotal(blocks: Blocks, q: seq<int>, k: nat): nat
    requires k <= |q|
  {
    if k == 0 then 0 else ChainTotal(blocks, q, k - 1) + BlockSize(blocks, q[k - 1])
  }

  /** The largest of n and the sizes of the first k blocks of a chain. */
  function ChainMax(blocks: Blocks, q: seq<int>, k: nat, n: nat): nat
    requires k <= |q|
  {
    if k == 0 then n
    else
      var m, size := ChainMax(blocks, q, k - 1, n), BlockSize(blocks, q[k - 1]);
      if size > m then size else m
  }

  lemma ChainTally(blocks: Blocks, s: set<int>, q: seq<int>, k: nat, total: nat, largest: nat)
    requires NewTo(blocks, s, q) && k <= |q| && Tally(blocks, s, total, largest)
    ensures Tally(blocks, Visited(s, q, k), total + ChainTotal(blocks, q, k), ChainMax(blocks, q, k, largest))
  {
    ChainSum(blocks, s, q, k);
    ChainLargest(blocks, s, q, k, largest);
  }

  lemma {:induction false} ChainSum(blocks: Blocks, s: set<int>, q: seq<int>, k: nat)
    requires NewTo(blocks, s, q) && k <= |q|
    ensures Sum(Visited(s, q, k), Sizes(blocks)) == Sum(s, Sizes(blocks)) + ChainTotal(blocks, q, k)
    decreases k
  {
    if k == 0 {
      assert Visited(s, q, 0) == s;
    } else {
      ChainSum(blocks, s, q, k - 1);
      VisitedSum(blocks, s, q, k - 1);
    }
  }

  lemma VisitedSum(blocks: Blocks, s: set<int>, q: seq<int>, k: nat)
    requires NewTo(blocks, s, q) && k < |q|
    ensures Sum(Visited(s, q, k + 1), Sizes(blocks)) ==
            Sum(Visited(s, q, k), Sizes(blocks)) + BlockSize(blocks, q[k])
  {
    VisitNext(s, q, k);
    SumInsert(Visited(s, q, k), Sizes(blocks), q[k]);
  }

  lemma {:induction false} ChainLargest(blocks: Blocks, s: set<int>, q: seq<int>, k: nat, largest: nat)
    requires NewTo(blocks, s, q) && k <= |q| && IsLargest(blocks, s, largest)
    ensures IsLargest(blocks, Visited(s, q, k), ChainMax(blocks, q, k, largest))
    decreases k
  {
    if k == 0 {
      assert Visited(s, q, 0) == s;
    } else {
      ChainLargest(blocks, s, q, k - 1, largest);
      VisitNext(s, q, k - 1);
      LargestNext(blocks, Visited(s, q, k - 1), ChainMax(blocks, q, k - 1, largest), q[k - 1]);
    }
  }

  lemma LargestNext(blocks: Blocks, s: set<int>, n: nat, b: int)
    requires IsLargest(blocks, s, n) && b in blocks
    ensures IsLargest(blocks, s + {b}, if blocks[b].size > n then blocks[b].size else n)
  {
    assert b in s + {b};
  }

  /** Traversing bin i extends the tally to its blocks. */
  lemma BinTally(m: Mem, heads: seq<nat>, chains: seq<seq<int>>, blocks: Blocks, i: int, total: nat, largest: nat)
    requires Agree(m, heads, chains, blocks) && 0 <= i < BIN_COUNT
    requires Counted(blocks, i, total, largest) == true
    ensures var q := chains[i];
            Counted(blocks, i + 1, total + ChainTotal(blocks, q, |q|), ChainMax(blocks, q, |q|, largest)) == true
  {
    var q := chains[i];
    assert Opened(blocks, 0);
    assert BinOK(m, heads[i], q, blocks, i);
    BinIsNew(blocks, q, i);
    ChainTally(blocks, BinsBelow(blocks, i), q, |q|, total, largest);
    AllVisited(blocks, chains, i);
    BinsBelowNext(blocks, i);
  }

  lemma BinIsNew(blocks: Blocks, q: seq<int>, i: int)
    requires Listed(blocks, q, i) && NoDup(q)
    ensures NewTo(blocks, BinsBelow(blocks, i), q)
  {
    forall k | 0 <= k < |q|
      ensures q[k] in blocks && q[k] !in BinsBelow(blocks, i)
    {
      assert InBin(blocks, q[k], i);
    }
  }

  lemma BinsBelowEnds(blocks: Blocks)
    ensures Tally(blocks, BinsBelow(blocks, 0), 0, 0)
    ensures BinsBelow(blocks, BIN_COUNT) == FreeKeys(blocks)
  {
    assert BinsBelow(blocks, 0) == {} by {
      forall x | x in BinsBelow(blocks, 0)
        ensures false
      {}
    }
    forall x | x in FreeKeys(blocks)
      ensures x in BinsBelow(blocks, BIN_COUNT)
    {
      assert BinIndex(blocks[x].size) < BIN_COUNT;
    }
  }

  lemma TallyTotal(l: Layout, total: nat, largest: nat)
    requires Tiled(l) && Counted(l.blocks, BIN_COUNT, total, largest) == true
    ensures total == |l.segs| * SEGMENT_SIZE - Sum(LiveSet(l), Sizes(l.blocks))
    ensures total == 0 <==> FreeKeys(l.blocks) == {}
    ensures IsLargest(l.blocks, FreeKeys(l.blocks), largest)
    ensures largest <= total && (total > 0 ==> largest > 0)
  {
    assert Opened(l, 0) && Opened(l.blocks, 0);
    BinsBelowEnds(l.blocks);
    FreeBytes(l);
    TotalBounds(l.blocks, FreeKeys(l.blocks), largest);
  }

  lemma TotalBounds(blocks: Blocks, s: set<int>, n: nat)
    requires Shaped(blocks) && s <= blocks.Keys && IsLargest(blocks, s, n)
    ensures Sum(s, Sizes(blocks)) >= n
    ensures Sum(s, Sizes(blocks)) == 0 <==> s == {}
    ensures s != {} ==> n > 0
  {
    forall x | x in s
      ensures Sizes(blocks)(x) >= 0
    {
      assert x in blocks;
    }
    SumNonNegative(s, Sizes(blocks));
    if s != {} {
      var b := Pick(s);
      assert b in blocks && Sizes(blocks)(b) >= MIN_BLOCK_SIZE;
    }
    if b :| b in s && b in blocks && blocks[b].size == n {
      assert Sizes(blocks)(b) == n;
    }
  }

  lemma RatioBounds(n: nat, t: nat)
    requires n <= t && (t > 0 ==> n > 0)
    ensures t > 0 ==> 0.0 <= 1.0 - n as real / t as real < 1.0
  {
    if t > 0 {
      var x, y := n as real, t as real;
      assert 0.0 < x <= y;
      assert x / y * y == x;
      assert 0.0 < x / y <= 1.0;
    }
  }
}
