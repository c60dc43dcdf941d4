/** The segment heap as a partition of its segments: which blocks exist, how the
    public operations change them, and what every reachable partition satisfies. */
module SegmentLayout {
  import opened Folding
  import opened Tags

  /** A block: its size, the stored size of its left neighbour, whether it is
      free, and the base of the segment that holds it. */
  datatype Blk = Blk(size: nat, prev: nat, free: bool, home: int)

  type Blocks = map<int, Blk>

  /** The blocks by address, and the bases of the mapped segments in the order of
      the segment vector. */
  datatype Layout = Layout(blocks: Blocks, segs: seq<int>)

  predicate First(b: int, k: Blk) { b == k.home }

  predicate Last(b: int, k: Blk) { b + k.size == k.home + SEGMENT_SIZE }

  predicate Whole(b: int, k: Blk) { First(b, k) && Last(b, k) }

  // ---------------------------------------------------------------- invariant

  ghost predicate SizeOK(k: Blk) {
    MIN_BLOCK_SIZE <= k.size <= SEGMENT_SIZE
  }

  ghost predicate Granular(k: Blk) {
    k.size % 16 == 0
  }

  ghost predicate InSegment(b: int, k: Blk) {
    k.home <= b && b + k.size <= k.home + SEGMENT_SIZE
  }

  /** The right neighbour of b starts where b ends and remembers b's size. */
  ghost predicate RightOK(blocks: Blocks, b: int)
    requires b in blocks
  {
    var k := blocks[b];
    !Last(b, k) ==>
      && b + k.size in blocks
      && blocks[b + k.size].home == k.home
      && blocks[b + k.size].prev == k.size
  }

  /** The left neighbour of b is found through the stored size. */
  ghost predicate LeftOK(blocks: Blocks, b: int)
    requires b in blocks
  {
    var k := blocks[b];
    if First(b, k) then k.prev == 0
    else
      && b - k.prev in blocks
      && blocks[b - k.prev].home == k.home
      && blocks[b - k.prev].size == k.prev
  }

  ghost predicate Linked(blocks: Blocks) {
    forall b {:trigger RightOK(blocks, b)} {:trigger LeftOK(blocks, b)} ::
      b in blocks ==> RightOK(blocks, b) && LeftOK(blocks, b)
  }

  ghost predicate Apart(blocks: Blocks) {
    forall b, c {:trigger Before(blocks, b, c)} :: b in blocks && c in blocks && b < c ==> Before(blocks, b, c)
  }

  /** The block at b ends no later than c. */
  predicate Before(blocks: Blocks, b: int, c: int)
    requires b in blocks
  {
    b + blocks[b].size <= c
  }

  ghost predicate SegsApart(segs: seq<int>) {
    forall i, j {:trigger Beyond(segs[i], segs[j])} :: 0 <= i < j < |segs| ==> Beyond(segs[i], segs[j])
  }

  /** Segments at s and t do not overlap. */
  predicate Beyond(s: int, t: int) {
    s + SEGMENT_SIZE <= t || t + SEGMENT_SIZE <= s
  }

  ghost predicate Shaped(blocks: Blocks) {
    && Apart(blocks)
    && (forall b :: b in blocks ==> SizeOK(blocks[b]) && InSegment(b, blocks[b]))
    && (forall b {:trigger Granular(blocks[b])} :: b in blocks ==> Granular(blocks[b]))
  }

  /** The blocks tile every segment exactly, and the stored left sizes are right. */
  ghost predicate Tiled(l: Layout) {
    forall key {:trigger Opened(l, key)} :: Opened(l, key) ==> Tiles(l)
  }

  ghost predicate Tiles(l: Layout) {
    && Shaped(l.blocks)
    && SegsApart(l.segs)
    && Linked(l.blocks)
    && (forall b :: b in l.blocks ==> l.blocks[b].home in l.segs)
    && (forall s :: s in l.segs ==> s in l.blocks && l.blocks[s].home == s)
  }

  /** No two neighbours are both free. */
  ghost predicate Coalesced(blocks: Blocks) {
    forall b {:trigger AbsorbsRight(blocks, b)} ::
      b in blocks && blocks[b].free ==> !AbsorbsRight(blocks, b)
  }

  /** A wholly free segment is the only segment. */
  ghost predicate Resident(l: Layout) {
    forall b :: b in l.blocks && l.blocks[b].free && Whole(b, l.blocks[b]) ==> |l.segs| == 1
  }

  ghost predicate WellFormed(l: Layout) {
    Tiled(l) && Coalesced(l.blocks) && Resident(l)
  }

  // --------------------------------------------------------------- operations

  predicate FreeFit(l: Layout, b: int, total: nat) {
    b in l.blocks && l.blocks[b].free && total <= l.blocks[b].size
  }

  predicate IsLive(l: Layout, b: int) {
    b in l.blocks && !l.blocks[b].free
  }

  ghost function FreeKeys(blocks: Blocks): set<int> {
    set b | b in blocks && blocks[b].free
  }

  /** The request a caller of allocate(bytes) makes of the heap: a rounded,
      tagged size no smaller than the least block. */
  ghost predicate Request(total: nat) {
    total % 16 == 0 && MIN_BLOCK_SIZE <= total <= SEGMENT_SIZE
  }

  function Added(bs: Blocks, base: int): Blocks {
    bs[base := Blk(SEGMENT_SIZE, 0, true, base)]
  }

  /** addSegment: a new segment holding one free block. */
  function AddSegment(l: Layout, base: int): Layout {
    Layout(Added(l.blocks, base), l.segs + [base])
  }

  /** removeFree followed by splitBlock on the free block b. */
  function AllocAt(l: Layout, b: int, total: nat): Layout
    requires FreeFit(l, b, total)
  {
    var k := l.blocks[b];
    var remainder := k.size - total;
    if remainder < MIN_BLOCK_SIZE then
      l.(blocks := SetFree(l.blocks, b, false))
    else
      l.(blocks := Split(l.blocks, b, total))
  }

  /** Cut b after total bytes: the head is taken, the rest is free. */
  function Split(blocks: Blocks, b: int, total: nat): Blocks
    requires b in blocks && total <= blocks[b].size
  {
    var k := blocks[b];
    var cut := blocks[b := Blk(total, k.prev, false, k.home)]
               [b + total := Blk(k.size - total, total, true, k.home)];
    SetPrev(cut, b + k.size, k.size - total, !Last(b, k))
  }

  function SetPrev(blocks: Blocks, n: int, size: nat, applies: bool): Blocks {
    if applies && n in blocks then blocks[n := blocks[n].(prev := size)] else blocks
  }

  /** The right neighbour to absorb when b is freed, if there is one. */
  predicate AbsorbsRight(blocks: Blocks, b: int)
    requires b in blocks
  {
    var k := blocks[b];
    !Last(b, k) && b + k.size in blocks && blocks[b + k.size].free
  }

  predicate AbsorbedByLeft(blocks: Blocks, b: int)
    requires b in blocks
  {
    var k := blocks[b];
    !First(b, k) && b - k.prev in blocks && blocks[b - k.prev].free
  }

  /** Where the free block that swallows b begins and ends. */
  function MergeStart(blocks: Blocks, b: int): int
    requires b in blocks
  {
    if AbsorbedByLeft(blocks, b) then b - blocks[b].prev else b
  }

  function MergeEnd(blocks: Blocks, b: int): int
    requires b in blocks
  {
    var e := b + blocks[b].size;
    if AbsorbsRight(blocks, b) then e + blocks[e].size else e
  }

  /** Replace the blocks from c up to e by one block at c. */
  function Merge(blocks: Blocks, c: int, e: int): Blocks
    requires c in blocks && c < e
  {
    map x | x in blocks && !(c < x < e) ::
      if x == c then blocks[x].(size := e - c)
      else if x == e && e != blocks[c].home + SEGMENT_SIZE then blocks[x].(prev := e - c)
      else blocks[x]
  }

  function SetFree(blocks: Blocks, c: int, free: bool): Blocks
    requires c in blocks
  {
    blocks[c := blocks[c].(free := free)]
  }

  function Erase(segs: seq<int>, s: int): seq<int> {
    if segs == [] then []
    else if segs[0] == s then segs[1..]
    else [segs[0]] + Erase(segs[1..], s)
  }

  /** insertFree or releaseSegment on the coalesced block c. */
  function Settle(l: Layout, c: int): Layout
    requires c in l.blocks
  {
    if Whole(c, l.blocks[c]) && |l.segs| > 1 then
      Layout(l.blocks - {c}, Erase(l.segs, c))
    else
      l.(blocks := SetFree(l.blocks, c, true))
  }

  /** deallocate of the live block b. */
  function FreeAt(l: Layout, b: int): Layout
    requires b in l.blocks && l.blocks[b].size > 0
  {
    var c, e := MergeStart(l.blocks, b), MergeEnd(l.blocks, b);
    Settle(l.(blocks := Merge(l.blocks, c, e)), c)
  }

  /** What a client holds: the live blocks, their sizes and their segments. */
  datatype Held = Held(size: nat, home: int)

  function Live(l: Layout): map<int, Held> {
    map b | b in l.blocks && !l.blocks[b].free :: Held(l.blocks[b].size, l.blocks[b].home)
  }

  // ---------------------------------------------------------------- neighbours

  /** No other block reaches into the block at b. */
  lemma Around(blocks: Blocks, b: int)
    requires Apart(blocks) && b in blocks
    ensures forall x :: x in blocks ==> x == b || x + blocks[x].size <= b || b + blocks[b].size <= x
  {
    forall x | x in blocks
      ensures x == b || x + blocks[x].size <= b || b + blocks[b].size <= x
    {
      assert x < b ==> Before(blocks, x, b);
      assert b < x ==> Before(blocks, b, x);
    }
  }

  // ------------------------------------------------------ segment membership

  lemma SameSegment(l: Layout, b: int, c: int)
    requires Tiled(l) && b in l.blocks && c in l.blocks
    requires l.blocks[b].home <= c < l.blocks[b].home + SEGMENT_SIZE
    ensures l.blocks[b].home == l.blocks[c].home
  {
    assert Opened(l, 0);
    var s, t := l.blocks[b].home, l.blocks[c].home;
    var i :| 0 <= i < |l.segs| && l.segs[i] == s;
    var j :| 0 <= j < |l.segs| && l.segs[j] == t;
    assert i < j ==> Beyond(l.segs[i], l.segs[j]);
    assert j < i ==> Beyond(l.segs[j], l.segs[i]);
  }

  /** A range of whole blocks of one segment. */
  ghost predicate BlockRange(bs: Blocks, c: int, e: int) {
    && c in bs && c < e
    && (e == bs[c].home + SEGMENT_SIZE || (e in bs && bs[e].home == bs[c].home))
  }

  /** Merging a range of whole blocks into one keeps the tiling. */
  lemma MergeKeepsTiled(l: Layout, c: int, e: int)
    requires Tiled(l) && BlockRange(l.blocks, c, e)
    ensures Tiled(l.(blocks := Merge(l.blocks, c, e)))
  {
    RangeIsClosed(l, c, e);
    MergeKeepsPartition(l, c, e);
    MergeKeepsSegments(l, c, e);
  }

  lemma MergeKeepsPartition(l: Layout, c: int, e: int)
    requires Tiled(l) && ClosedRange(l.blocks, c, e) == true
    ensures var bs' := Merge(l.blocks, c, e);
            c in l.blocks && Shaped(bs') && Linked(bs') && SegsApart(l.segs)
  {
    assert Opened(l, 0);
    MergeKeepsShape(l.blocks, c, e);
    MergeKeepsLinked(l.blocks, c, e);
  }

  lemma MergeKeepsSegments(l: Layout, c: int, e: int)
    requires Tiled(l) && ClosedRange(l.blocks, c, e)
    ensures var bs' := Merge(l.blocks, c, e);
            && (forall x :: x in bs' ==> bs'[x].home in l.segs)
            && (forall s :: s in l.segs ==> s in bs' && bs'[s].home == s)
  {
    assert Opened(l, 0);
    assert InSegment(c, l.blocks[c]);
  }

  lemma RangeIsClosed(l: Layout, c: int, e: int)
    requires Tiled(l) && BlockRange(l.blocks, c, e)
    ensures ClosedRange(l.blocks, c, e)
  {
    assert Opened(l, 0);
    RangeSize(l.blocks, c, e);
    forall p | p in l.blocks && c <= p < e
      ensures p + l.blocks[p].size <= e && l.blocks[p].home == l.blocks[c].home
    {
      SameSegment(l, c, p);
      assert p < e && e in l.blocks ==> Before(l.blocks, p, e);
    }
  }

  /** A range that holds exactly the blocks between c and e. */
  ghost predicate ClosedRange(bs: Blocks, c: int, e: int) {
    && BlockRange(bs, c, e)
    && (e - c) % 16 == 0
    && c + bs[c].size <= e <= bs[c].home + SEGMENT_SIZE
    && forall p :: p in bs && c <= p < e ==> p + bs[p].size <= e && bs[p].home == bs[c].home
  }

  lemma MergeKeepsShape(bs: Blocks, c: int, e: int)
    requires Shaped(bs) && ClosedRange(bs, c, e)
    ensures Shaped(Merge(bs, c, e))
  {
    var bs' := Merge(bs, c, e);
    MergeKeepsApart(bs, c, e);
    forall x | x in bs'
      ensures Granular(bs'[x])
    {
      assert Granular(bs[x]);
    }
  }

  lemma MergeKeepsApart(bs: Blocks, c: int, e: int)
    requires Shaped(bs) && ClosedRange(bs, c, e)
    ensures Apart(Merge(bs, c, e))
  {
    var bs' := Merge(bs, c, e);
    forall x, y | x in bs' && y in bs' && x < y
      ensures Before(bs', x, y)
    {
      assert Before(bs, x, y);
    }
  }

  lemma MergeKeepsLinked(bs: Blocks, c: int, e: int)
    requires Shaped(bs) && Linked(bs) && ClosedRange(bs, c, e)
    ensures Linked(Merge(bs, c, e))
  {
    forall x | x in Merge(bs, c, e)
      ensures RightOK(Merge(bs, c, e), x) && LeftOK(Merge(bs, c, e), x)
    {
      assert RightOK(bs, x) && LeftOK(bs, x);
      MergeKeepsRight(bs, c, e, x);
      MergeKeepsLeft(bs, c, e, x);
    }
  }

  lemma MergeKeepsRight(bs: Blocks, c: int, e: int, x: int)
    requires Shaped(bs) && ClosedRange(bs, c, e) && x in Merge(bs, c, e)
    requires RightOK(bs, x)
    ensures RightOK(Merge(bs, c, e), x)
  {
    Around(bs, x);
    Around(bs, c);
  }

  lemma MergeKeepsLeft(bs: Blocks, c: int, e: int, x: int)
    requires Shaped(bs) && ClosedRange(bs, c, e) && x in Merge(bs, c, e)
    requires LeftOK(bs, x)
    ensures LeftOK(Merge(bs, c, e), x)
  {}

  lemma RangeSize(bs: Blocks, c: int, e: int)
    requires Shaped(bs) && Linked(bs) && BlockRange(bs, c, e)
    ensures (e - c) % 16 == 0 && c + bs[c].size <= e <= bs[c].home + SEGMENT_SIZE
    decreases e - c
  {
    Around(bs, c);
    var n := c + bs[c].size;
    assert RightOK(bs, c) && Granular(bs[c]);
    if n < e {
      RangeSize(bs, n, e);
    }
  }

  // ------------------------------------------------------------------- freeing

  lemma FreeRange(bs: Blocks, b: int)
    requires Shaped(bs) && Linked(bs) && b in bs
    ensures BlockRange(bs, MergeStart(bs, b), MergeEnd(bs, b))
    ensures bs[MergeStart(bs, b)].home == bs[b].home
  {
    assert RightOK(bs, b) && LeftOK(bs, b);
    if AbsorbsRight(bs, b) {
      assert RightOK(bs, b + bs[b].size);
    }
  }

  /** Blocks that differ in nothing but their free flags. */
  ghost predicate SameGeometry(bs: Blocks, bs': Blocks) {
    && bs.Keys == bs'.Keys
    && forall x :: x in bs ==> bs[x].size == bs'[x].size && bs[x].prev == bs'[x].prev && bs[x].home == bs'[x].home
  }

  lemma GeometryKeepsShape(bs: Blocks, bs': Blocks)
    requires Shaped(bs) && SameGeometry(bs, bs')
    ensures Shaped(bs')
  {
    forall x, y | x in bs' && y in bs' && x < y
      ensures Before(bs', x, y)
    {
      assert Before(bs, x, y);
    }
    forall x | x in bs'
      ensures Granular(bs'[x])
    {
      assert Granular(bs[x]);
    }
  }

  lemma GeometryKeepsLinks(bs: Blocks, bs': Blocks)
    requires Linked(bs) && SameGeometry(bs, bs')
    ensures Linked(bs')
  {
    forall x | x in bs'
      ensures RightOK(bs', x) && LeftOK(bs', x)
    {
      assert RightOK(bs, x) && LeftOK(bs, x);
    }
  }

  lemma SetFreeKeepsTiled(l: Layout, c: int, free: bool)
    requires Tiled(l) && c in l.blocks
    ensures Tiled(l.(blocks := SetFree(l.blocks, c, free)))
  {
    assert Opened(l, 0);
    GeometryKeepsShape(l.blocks, SetFree(l.blocks, c, free));
    GeometryKeepsLinks(l.blocks, SetFree(l.blocks, c, free));
  }

  /** Neither neighbour of the merged range is free. */
  lemma FreeRangeMaximal(bs: Blocks, b: int)
    requires Shaped(bs) && Linked(bs) && Coalesced(bs) && b in bs
    ensures var e := MergeEnd(bs, b);
            e in bs && e != bs[b].home + SEGMENT_SIZE ==> !bs[e].free
    ensures var c := MergeStart(bs, b);
            c in bs && (!First(c, bs[c]) ==> c - bs[c].prev in bs && !bs[c - bs[c].prev].free)
  {
    assert RightOK(bs, b) && LeftOK(bs, b);
    if AbsorbsRight(bs, b) {
      var n := b + bs[b].size;
      assert RightOK(bs, n) && !AbsorbsRight(bs, n);
    }
    if AbsorbedByLeft(bs, b) {
      var p := b - bs[b].prev;
      assert LeftOK(bs, p) && RightOK(bs, p);
      if !First(p, bs[p]) {
        var q := p - bs[p].prev;
        assert !(bs[q].free && AbsorbsRight(bs, q));
      }
    }
  }

  lemma MergedCoalesced(bs: Blocks, b: int)
    requires Shaped(bs) && Linked(bs) && Coalesced(bs) && b in bs
    requires ClosedRange(bs, MergeStart(bs, b), MergeEnd(bs, b))
    ensures var c := MergeStart(bs, b);
            Coalesced(SetFree(Merge(bs, c, MergeEnd(bs, b)), c, true))
  {
    var c, e := MergeStart(bs, b), MergeEnd(bs, b);
    FreeRangeMaximal(bs, b);
    FreeRange(bs, b);
    assert LeftOK(bs, c);
    MergedEnd(bs, c, e);
    forall x | x in bs && !(c <= x < e) && bs[x].free
      ensures !AbsorbsRight(SetFree(Merge(bs, c, e), c, true), x)
    {
      assert !AbsorbsRight(bs, x) && RightOK(bs, x);
      OutsideMerge(bs, c, e, x);
    }
  }

  /** The merged block does not touch a free block on its right. */
  lemma MergedEnd(bs: Blocks, c: int, e: int)
    requires BlockRange(bs, c, e)
    requires e in bs && e != bs[c].home + SEGMENT_SIZE ==> !bs[e].free
    ensures !AbsorbsRight(SetFree(Merge(bs, c, e), c, true), c)
  {}

  /** A free block outside the merged range does not touch a free block. */
  lemma OutsideMerge(bs: Blocks, c: int, e: int, x: int)
    requires Shaped(bs) && ClosedRange(bs, c, e) && x in bs && !(c <= x < e) && bs[x].free
    requires !AbsorbsRight(bs, x) && RightOK(bs, x)
    requires LeftOK(bs, c) && (First(c, bs[c]) || !bs[c - bs[c].prev].free)
    ensures !AbsorbsRight(SetFree(Merge(bs, c, e), c, true), x)
  {
  }

  lemma EraseMembers(segs: seq<int>, s: int)
    requires SegsApart(segs) && s in segs
    ensures SegsApart(Erase(segs, s))
    ensures |Erase(segs, s)| == |segs| - 1
    ensures forall t :: t in Erase(segs, s) <==> t in segs && t != s
  {
    assert segs == [segs[0]] + segs[1..];
    TailApart(segs);
    if segs[0] == s {
      assert s !in segs[1..] by { HeadBeyond(segs); }
    } else {
      EraseMembers(segs[1..], s);
      var r := Erase(segs[1..], s);
      forall t | t in r
        ensures Beyond(segs[0], t)
      {
        HeadBeyond(segs);
      }
      ApartFrom(segs[0], r);
    }
  }

  lemma TailApart(segs: seq<int>)
    requires SegsApart(segs) && segs != []
    ensures SegsApart(segs[1..])
  {
    var r := segs[1..];
    forall i, j | 0 <= i < j < |r|
      ensures Beyond(r[i], r[j])
    {
      assert Beyond(segs[i + 1], segs[j + 1]);
    }
  }

  lemma HeadBeyond(segs: seq<int>)
    requires SegsApart(segs) && segs != []
    ensures forall t :: t in segs[1..] ==> Beyond(segs[0], t)
  {
    forall t | t in segs[1..]
      ensures Beyond(segs[0], t)
    {
      var j :| 0 <= j < |segs[1..]| && segs[1..][j] == t;
      assert Beyond(segs[0], segs[j + 1]);
    }
  }

  lemma ApartFrom(s: int, r: seq<int>)
    requires SegsApart(r) && forall t :: t in r ==> Beyond(s, t)
    ensures SegsApart([s] + r)
  {
    var segs := [s] + r;
    forall i, j | 0 <= i < j < |segs|
      ensures Beyond(segs[i], segs[j])
    {
      assert i > 0 ==> Beyond(r[i - 1], r[j - 1]);
      assert r[j - 1] in r;
    }
  }

  /** Returning a segment that is one block keeps the other segments tiled. */
  lemma ReleaseKeepsTiled(l: Layout, c: int)
    requires Tiled(l) && c in l.blocks && Whole(c, l.blocks[c])
    ensures Tiled(Layout(l.blocks - {c}, Erase(l.segs, c)))
    ensures |Erase(l.segs, c)| == |l.segs| - 1
  {
    ReleaseKeepsPartition(l, c);
    ReleaseKeepsSegments(l, c);
  }

  /** A block that fills a segment is the only block there. */
  lemma WholeAlone(l: Layout, c: int, x: int)
    requires Tiled(l) && c in l.blocks && Whole(c, l.blocks[c]) && x in l.blocks && x != c
    ensures l.blocks[x].home != c
  {
    assert Opened(l, 0);
    Around(l.blocks, c);
    assert InSegment(x, l.blocks[x]);
  }

  lemma ReleaseKeepsPartition(l: Layout, c: int)
    requires Tiled(l) && c in l.blocks && Whole(c, l.blocks[c])
    ensures Shaped(l.blocks - {c}) && Linked(l.blocks - {c})
  {
    var bs, bs' := l.blocks, l.blocks - {c};
    assert Opened(l, 0);
    forall x, y | x in bs' && y in bs' && x < y
      ensures Before(bs', x, y)
    {
      assert Before(bs, x, y);
    }
    forall x | x in bs'
      ensures Granular(bs'[x])
    {
      assert Granular(bs[x]);
    }
    forall x | x in bs'
      ensures RightOK(bs', x) && LeftOK(bs', x)
    {
      WholeAlone(l, c, x);
      assert RightOK(bs, x) && LeftOK(bs, x);
    }
  }

  lemma ReleaseKeepsSegments(l: Layout, c: int)
    requires Tiled(l) && c in l.blocks && Whole(c, l.blocks[c])
    ensures var bs', segs' := l.blocks - {c}, Erase(l.segs, c);
            && SegsApart(segs') && |segs'| == |l.segs| - 1
            && (forall x :: x in bs' ==> bs'[x].home in segs')
            && (forall s :: s in segs' ==> s in bs' && bs'[s].home == s)
  {
    assert Opened(l, 0);
    EraseMembers(l.segs, c);
    forall x | x in l.blocks - {c}
      ensures l.blocks[x].home in Erase(l.segs, c)
    {
      WholeAlone(l, c, x);
    }
  }

  /** Freeing a live block keeps every part of the invariant, removes exactly that
      block from what the client holds, and never returns the last segment. */
  lemma FreeKeepsWellFormed(l: Layout, b: int)
    requires WellFormed(l) && IsLive(l, b)
    ensures l.blocks[b].size > 0 && WellFormed(FreeAt(l, b))
    ensures Live(FreeAt(l, b)) == Live(l) - {b}
    ensures FreeAt(l, b).segs != []
  {
    assert Opened(l, 0);
    var c, e := MergeStart(l.blocks, b), MergeEnd(l.blocks, b);
    FreeRange(l.blocks, b);
    RangeIsClosed(l, c, e);
    MergeKeepsTiled(l, c, e);
    MergedCoalesced(l.blocks, b);
    var m := l.(blocks := Merge(l.blocks, c, e));
    SettleKeepsWellFormed(l, b, m, c);
    FreedLive(l, b);
  }

  lemma SettleKeepsWellFormed(l: Layout, b: int, m: Layout, c: int)
    requires Resident(l) && b in l.blocks && l.segs == m.segs
    requires Tiled(m) && c in m.blocks && Coalesced(SetFree(m.blocks, c, true))
    requires forall x :: x in m.blocks && x != c ==>
      x in l.blocks && l.blocks[x].free == m.blocks[x].free && l.blocks[x].size == m.blocks[x].size &&
      l.blocks[x].home == m.blocks[x].home
    ensures WellFormed(Settle(m, c)) && Settle(m, c).segs != []
  {
    assert Opened(m, 0);
    assert m.blocks[c].home in m.segs;
    SettleResident(l, m, c);
    if Whole(c, m.blocks[c]) && |m.segs| > 1 {
      ReleaseKeepsTiled(m, c);
      ReleaseKeepsCoalesced(m.blocks, c);
    } else {
      SetFreeKeepsTiled(m, c, true);
    }
  }

  /** The one block that may fill a segment is returned, unless its segment is the only one. */
  lemma SettleResident(l: Layout, m: Layout, c: int)
    requires Resident(l) && l.segs == m.segs && c in m.blocks && m.segs != []
    requires forall x :: x in m.blocks && x != c ==>
      x in l.blocks && l.blocks[x].free == m.blocks[x].free && l.blocks[x].size == m.blocks[x].size &&
      l.blocks[x].home == m.blocks[x].home
    requires Whole(c, m.blocks[c]) && |m.segs| > 1 ==> SegsApart(m.segs) && c in m.segs
    ensures Resident(Settle(m, c))
  {
    if Whole(c, m.blocks[c]) && |m.segs| > 1 { EraseMembers(m.segs, c); }
  }

  lemma ReleaseKeepsCoalesced(bs: Blocks, c: int)
    requires c in bs && Coalesced(SetFree(bs, c, true))
    ensures Coalesced(bs - {c})
  {
    forall x | x in bs - {c} && bs[x].free
      ensures !AbsorbsRight(bs - {c}, x)
    {
      assert !AbsorbsRight(SetFree(bs, c, true), x);
    }
  }

  lemma FreedLive(l: Layout, b: int)
    requires Shaped(l.blocks) && Linked(l.blocks) && IsLive(l, b)
    ensures Live(FreeAt(l, b)) == Live(l) - {b}
  {
    var bs := l.blocks;
    var c, e := MergeStart(bs, b), MergeEnd(bs, b);
    assert LeftOK(bs, b);
    forall x | x in bs && c <= x < e
      ensures x == b || bs[x].free
    {
      AbsorbedAreFree(bs, b, x);
    }
    SettledLive(l, Merge(bs, c, e), b, c, e);
  }

  lemma SettledLive(l: Layout, m: Blocks, b: int, c: int, e: int)
    requires c in l.blocks && c <= b < e && m == Merge(l.blocks, c, e)
    requires forall x :: x in l.blocks && c <= x < e ==> x == b || l.blocks[x].free
    ensures Live(Settle(l.(blocks := m), c)) == Live(l) - {b}
  {
    var a, a' := Live(l) - {b}, Live(Settle(l.(blocks := m), c));
    forall x
      ensures x in a <==> x in a'
      ensures x in a ==> a[x] == a'[x]
    {}
  }

  lemma AbsorbedAreFree(bs: Blocks, b: int, x: int)
    requires Shaped(bs) && b in bs && x in bs && LeftOK(bs, b)
    requires MergeStart(bs, b) <= x < MergeEnd(bs, b)
    ensures x == b || bs[x].free
  {
    Around(bs, b);
    Around(bs, x);
  }

  // ---------------------------------------------------------------- allocating

  /** No wholly free segment besides a possible one at b coexists with others. */
  ghost predicate ResidentBut(l: Layout, b: int) {
    forall x :: x in l.blocks && x != b && l.blocks[x].free && Whole(x, l.blocks[x]) ==> |l.segs| == 1
  }

  ghost predicate Cuttable(bs: Blocks, b: int, total: nat) {
    b in bs && Request(total) && total + MIN_BLOCK_SIZE <= bs[b].size
  }

  lemma SplitKeepsShape(bs: Blocks, b: int, total: nat)
    requires Shaped(bs) && Cuttable(bs, b, total)
    ensures Shaped(Split(bs, b, total))
  {
    var bs' := Split(bs, b, total);
    SplitKeepsApart(bs, b, total);
    assert Granular(bs[b]);
    forall x | x in bs'
      ensures SizeOK(bs'[x]) && InSegment(x, bs'[x]) && Granular(bs'[x])
    {
      assert x in bs ==> Granular(bs[x]);
    }
  }

  lemma SplitKeepsApart(bs: Blocks, b: int, total: nat)
    requires Apart(bs) && Cuttable(bs, b, total)
    ensures Apart(Split(bs, b, total))
  {
    Around(bs, b);
    var bs' := Split(bs, b, total);
    forall x, y | x in bs' && y in bs' && x < y
      ensures Before(bs', x, y)
    {
      assert x in bs && y in bs ==> Before(bs, x, y);
    }
  }

  lemma SplitKeepsLinked(bs: Blocks, b: int, total: nat)
    requires Shaped(bs) && Linked(bs) && Cuttable(bs, b, total)
    ensures Linked(Split(bs, b, total))
  {
    assert RightOK(bs, b) && LeftOK(bs, b);
    forall x | x in Split(bs, b, total)
      ensures RightOK(Split(bs, b, total), x) && LeftOK(Split(bs, b, total), x)
    {
      if x in bs {
        assert RightOK(bs, x) && LeftOK(bs, x);
        SplitKeepsRight(bs, b, total, x);
        SplitKeepsLeft(bs, b, total, x);
      }
    }
  }

  lemma SplitKeepsRight(bs: Blocks, b: int, total: nat, x: int)
    requires Apart(bs) && Cuttable(bs, b, total) && x in bs && bs[x].size > 0
    requires RightOK(bs, b) && RightOK(bs, x)
    ensures RightOK(Split(bs, b, total), x)
  {
    Around(bs, b);
    Around(bs, x);
  }

  lemma SplitKeepsLeft(bs: Blocks, b: int, total: nat, x: int)
    requires Shaped(bs) && Cuttable(bs, b, total) && x in bs
    requires RightOK(bs, b) && LeftOK(bs, x)
    ensures LeftOK(Split(bs, b, total), x)
  {
    Around(bs, b);
    Around(bs, x);
  }

  lemma SplitKeepsCoalesced(bs: Blocks, b: int, total: nat)
    requires Shaped(bs) && Linked(bs) && Coalesced(bs) && Cuttable(bs, b, total) && bs[b].free
    ensures Coalesced(Split(bs, b, total))
  {
    assert RightOK(bs, b) && !AbsorbsRight(bs, b);
    RestTouchesNone(bs, b, total);
    forall x | x in bs && x != b && bs[x].free
      ensures !AbsorbsRight(Split(bs, b, total), x)
    {
      assert !AbsorbsRight(bs, x) && RightOK(bs, x);
      SplitTouchesNone(bs, b, total, x);
    }
  }

  lemma RestTouchesNone(bs: Blocks, b: int, total: nat)
    requires Cuttable(bs, b, total) && RightOK(bs, b) && !AbsorbsRight(bs, b)
    ensures b + total in Split(bs, b, total) && !AbsorbsRight(Split(bs, b, total), b + total)
  {}

  lemma SplitTouchesNone(bs: Blocks, b: int, total: nat, x: int)
    requires Apart(bs) && Cuttable(bs, b, total) && x in bs && x != b && bs[x].size > 0
    requires bs[b].free && RightOK(bs, x) && !AbsorbsRight(bs, x)
    ensures x in Split(bs, b, total) && !AbsorbsRight(Split(bs, b, total), x)
  {
    Around(bs, b);
    Around(bs, x);
  }

  lemma TakeKeepsCoalesced(bs: Blocks, b: int)
    requires Coalesced(bs) && b in bs
    ensures Coalesced(SetFree(bs, b, false))
  {
    var bs' := SetFree(bs, b, false);
    forall x | x in bs' && bs'[x].free
      ensures !AbsorbsRight(bs', x)
    {
      assert !AbsorbsRight(bs, x);
    }
  }

  /** Taking a free block that is large enough keeps the invariant and adds
      exactly that block, of at least the requested size and at most 47 bytes
      more, to what the client holds. */
  lemma AllocKeepsWellFormed(l: Layout, b: int, total: nat)
    requires Tiled(l) && Coalesced(l.blocks) && ResidentBut(l, b)
    requires FreeFit(l, b, total) && Request(total)
    ensures WellFormed(AllocAt(l, b, total))
    ensures var k := AllocAt(l, b, total).blocks[b];
            && total <= k.size < total + MIN_BLOCK_SIZE && k.home == l.blocks[b].home
            && Live(AllocAt(l, b, total)) == Live(l)[b := Held(k.size, k.home)]
    ensures b !in Live(l)
  {
    var k := l.blocks[b];
    if k.size - total < MIN_BLOCK_SIZE {
      SetFreeKeepsTiled(l, b, false);
      TakeKeepsCoalesced(l.blocks, b);
    } else {
      SplitKeepsTiled(l, b, total);
      SplitKeepsResident(l, b, total);
    }
    TakenLive(l, b, total);
  }

  lemma SplitKeepsTiled(l: Layout, b: int, total: nat)
    requires Tiled(l) && Coalesced(l.blocks) && Cuttable(l.blocks, b, total) && l.blocks[b].free
    ensures Tiled(l.(blocks := Split(l.blocks, b, total))) && Coalesced(Split(l.blocks, b, total))
  {
    assert Opened(l, 0);
    SplitKeepsShape(l.blocks, b, total);
    SplitKeepsLinked(l.blocks, b, total);
    SplitKeepsCoalesced(l.blocks, b, total);
    SplitKeepsSegments(l, b, total);
  }

  lemma SplitKeepsSegments(l: Layout, b: int, total: nat)
    requires Apart(l.blocks) && Cuttable(l.blocks, b, total)
    requires forall x :: x in l.blocks ==> l.blocks[x].home in l.segs
    requires forall s :: s in l.segs ==> s in l.blocks && l.blocks[s].home == s
    ensures var l' := l.(blocks := Split(l.blocks, b, total));
            && (forall x :: x in l'.blocks ==> l'.blocks[x].home in l'.segs)
            && (forall s :: s in l'.segs ==> s in l'.blocks && l'.blocks[s].home == s)
  {
    Around(l.blocks, b);
    var bs, bs' := l.blocks, Split(l.blocks, b, total);
    forall x | x in bs'
      ensures bs'[x].home in l.segs
    {
      SplitHome(bs, b, total, x);
    }
    forall s | s in l.segs
      ensures s in bs' && bs'[s].home == s
    {
      SplitHome(bs, b, total, s);
    }
  }

  /** The parts of a block stay in its segment, and no other block moves. */
  lemma SplitHome(bs: Blocks, b: int, total: nat, x: int)
    requires Apart(bs) && Cuttable(bs, b, total)
    ensures var bs' := Split(bs, b, total);
            && (x in bs' <==> x in bs || x == b + total)
            && (x in bs' ==> bs'[x].home == if x == b + total then bs[b].home else bs[x].home)
  {
    Around(bs, b);
  }

  lemma SplitKeepsResident(l: Layout, b: int, total: nat)
    requires Cuttable(l.blocks, b, total) && ResidentBut(l, b) && Tiled(l)
    ensures Resident(l.(blocks := Split(l.blocks, b, total)))
  {
    assert Opened(l, 0);
    var bs, bs' := l.blocks, Split(l.blocks, b, total);
    forall x | x in bs' && bs'[x].free && Whole(x, bs'[x])
      ensures |l.segs| == 1
    {
      SplitHome(bs, b, total, x);
    }
  }

  lemma TakenLive(l: Layout, b: int, total: nat)
    requires Tiled(l) && FreeFit(l, b, total) && Request(total)
    ensures var l' := AllocAt(l, b, total);
            Live(l') == Live(l)[b := Held(l'.blocks[b].size, l.blocks[b].home)]
  {
    if total < l.blocks[b].size {
      InsideNoBlock(l, b, b + total);
    }
    TakenOnly(l, b, total);
  }

  /** No block starts inside another. */
  lemma InsideNoBlock(l: Layout, b: int, x: int)
    requires Tiled(l) && b in l.blocks && b < x < b + l.blocks[b].size
    ensures x !in l.blocks
  {
    assert Opened(l, 0);
    Around(l.blocks, b);
  }

  lemma TakenOnly(l: Layout, b: int, total: nat)
    requires FreeFit(l, b, total) && total > 0 && (total < l.blocks[b].size ==> b + total !in l.blocks)
    ensures var l' := AllocAt(l, b, total);
            Live(l') == Live(l)[b := Held(l'.blocks[b].size, l.blocks[b].home)]
  {
    var l' := AllocAt(l, b, total);
    var a, a' := Live(l)[b := Held(l'.blocks[b].size, l.blocks[b].home)], Live(l');
    forall x
      ensures x in a <==> x in a'
      ensures x in a ==> a[x] == a'[x]
    {}
  }

  // ------------------------------------------------------------ adding segments

  /** A base the system may return: away from every mapped segment. */
  ghost predicate FreshBase(l: Layout, base: int) {
    forall s :: s in l.segs ==> base + SEGMENT_SIZE <= s || s + SEGMENT_SIZE <= base
  }

  /** A block of l lies away from a fresh segment. */
  lemma FreshApart(l: Layout, base: int, x: int)
    requires Tiled(l) && FreshBase(l, base) && x in l.blocks
    ensures base + SEGMENT_SIZE <= x || x + l.blocks[x].size <= base
  {
    assert Opened(l, 0);
    assert l.blocks[x].home in l.segs;
  }

  lemma AddKeepsSegsApart(segs: seq<int>, base: int)
    requires SegsApart(segs)
    requires forall s :: s in segs ==> base + SEGMENT_SIZE <= s || s + SEGMENT_SIZE <= base
    ensures SegsApart(segs + [base])
  {
    var r := segs + [base];
    forall i, j | 0 <= i < j < |r|
      ensures Beyond(r[i], r[j])
    {
      assert segs[i] in segs;
      assert j < |segs| ==> Beyond(segs[i], segs[j]);
    }
  }

  lemma AddKeepsTiled(l: Layout, base: int)
    requires Tiled(l) && FreshBase(l, base)
    ensures Tiled(AddSegment(l, base))
    ensures base !in l.blocks
  {
    assert Opened(l, 0);
    forall x | x in l.blocks
      ensures base + SEGMENT_SIZE <= x || x + l.blocks[x].size <= base
    {
      FreshApart(l, base, x);
    }
    AddKeepsSegsApart(l.segs, base);
    AddKeepsShape(l.blocks, base);
    AddKeepsLinked(l.blocks, base);
  }

  lemma AddKeepsShape(bs: Blocks, base: int)
    requires Shaped(bs)
    requires forall x :: x in bs ==> base + SEGMENT_SIZE <= x || x + bs[x].size <= base
    ensures Shaped(Added(bs, base))
  {
    var bs' := Added(bs, base);
    forall x, y | x in bs' && y in bs' && x < y
      ensures Before(bs', x, y)
    {
      assert x in bs && y in bs ==> Before(bs, x, y);
    }
    forall x | x in Added(bs, base)
      ensures Granular(Added(bs, base)[x])
    {
      assert x != base ==> Granular(bs[x]);
    }
  }

  lemma AddKeepsLinked(bs: Blocks, base: int)
    requires Linked(bs) && base !in bs
    ensures Linked(Added(bs, base))
  {
    forall x | x in Added(bs, base)
      ensures RightOK(Added(bs, base), x) && LeftOK(Added(bs, base), x)
    {
      if x != base { assert RightOK(bs, x) && LeftOK(bs, x); }
    }
  }

  lemma AddKeepsCoalesced(bs: Blocks, base: int)
    requires Linked(bs) && Coalesced(bs) && base !in bs
    ensures Coalesced(Added(bs, base))
  {
    forall x | x in Added(bs, base) && Added(bs, base)[x].free
      ensures !AbsorbsRight(Added(bs, base), x)
    {
      if x != base { assert !AbsorbsRight(bs, x) && RightOK(bs, x); }
    }
  }

  lemma AddLive(l: Layout, base: int)
    requires Tiled(l) && Coalesced(l.blocks) && FreshBase(l, base)
    ensures Tiled(AddSegment(l, base)) && Coalesced(AddSegment(l, base).blocks)
    ensures Live(AddSegment(l, base)) == Live(l) && base !in l.blocks
  {
    assert Opened(l, 0);
    AddKeepsTiled(l, base);
    AddKeepsCoalesced(l.blocks, base);
  }

  /** Serving a request from a new segment when no free block fits keeps the
      invariant: had another segment been wholly free, it would have fitted. */
  lemma AllocFreshKeepsWellFormed(l: Layout, base: int, total: nat)
    requires WellFormed(l) && FreshBase(l, base) && Request(total)
    requires forall x :: !FreeFit(l, x, total)
    ensures WellFormed(AllocAt(AddSegment(l, base), base, total))
    ensures var l' := AllocAt(AddSegment(l, base), base, total);
            && total <= l'.blocks[base].size < total + MIN_BLOCK_SIZE
            && l'.blocks[base].home == base && Live(l') == Live(l)[base := Held(l'.blocks[base].size, base)]
    ensures base !in Live(l)
  {
    assert Opened(l, 0);
    AddKeepsTiled(l, base);
    AddKeepsCoalesced(l.blocks, base);
    var m := AddSegment(l, base);
    forall x | x in m.blocks && x != base && m.blocks[x].free
      ensures !Whole(x, m.blocks[x])
    {
      assert !FreeFit(l, x, total);
    }
    AllocKeepsWellFormed(m, base, total);
    assert Live(m) == Live(l);
  }
}
