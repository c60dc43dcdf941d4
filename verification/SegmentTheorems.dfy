/** What holds of every partition the segment heap can reach. */
module SegmentTheorems {
  import opened Folding
  import opened Tags
  import opened Sums
  import opened SegmentLayout

  // ------------------------------------------------------------ canonical form

  /** Two coalesced tilings of the same segments that agree on the live blocks
      agree on every block: the free blocks are determined by the live ones. */
  lemma Canonical(l: Layout, m: Layout)
    requires Tiled(l) && Coalesced(l.blocks) && Tiled(m) && Coalesced(m.blocks)
    requires (forall s :: s in l.segs <==> s in m.segs) && Live(l) == Live(m)
    ensures l.blocks == m.blocks
  {
    forall b | b in l.blocks
      ensures b in m.blocks && m.blocks[b] == l.blocks[b]
    {
      CanonicalAt(l, m, b);
    }
    forall b | b in m.blocks
      ensures b in l.blocks
    {
      CanonicalAt(m, l, b);
    }
  }

  lemma {:induction false} CanonicalAt(l: Layout, m: Layout, b: int)
    requires Tiled(l) && Coalesced(l.blocks) && Tiled(m) && Coalesced(m.blocks)
    requires (forall s :: s in l.segs <==> s in m.segs) && Live(l) == Live(m)
    requires b in l.blocks
    ensures b in m.blocks && m.blocks[b] == l.blocks[b]
    decreases b - l.blocks[b].home
  {
    assert Opened(l, 0);
    assert Opened(m, 0);
    assert LeftOK(l.blocks, b);
    assert l.blocks[b].home in l.segs;
    if !First(b, l.blocks[b]) {
      var p := b - l.blocks[b].prev;
      CanonicalAt(l, m, p);
      assert RightOK(m.blocks, p) && RightOK(l.blocks, p);
    }
    assert b in m.blocks && m.blocks[b].home == l.blocks[b].home;
    assert LeftOK(m.blocks, b);
    SameStart(l, m, b);
  }

  lemma SameStart(l: Layout, m: Layout, b: int)
    requires Tiled(l) && Coalesced(l.blocks) && Tiled(m) && Coalesced(m.blocks) && Live(l) == Live(m)
    requires b in l.blocks && b in m.blocks && m.blocks[b].home == l.blocks[b].home
    ensures m.blocks[b].free == l.blocks[b].free && m.blocks[b].size == l.blocks[b].size
  {
    assert Opened(l, 0);
    assert Opened(m, 0);
    assert b in Live(l) <==> b in Live(m);
    if l.blocks[b].free {
      FreeNotShorter(l, m, b);
      FreeNotShorter(m, l, b);
    } else {
      assert Live(l)[b] == Live(m)[b];
    }
  }

  lemma FreeNotShorter(l: Layout, m: Layout, b: int)
    requires Shaped(l.blocks) && Linked(l.blocks) && Coalesced(l.blocks) && Shaped(m.blocks)
    requires Live(l) == Live(m)
    requires b in l.blocks && b in m.blocks && m.blocks[b].home == l.blocks[b].home
    requires l.blocks[b].free && m.blocks[b].free
    ensures l.blocks[b].size >= m.blocks[b].size
  {
    Around(l.blocks, b);
    Around(m.blocks, b);
    var n := b + l.blocks[b].size;
    assert RightOK(l.blocks, b) && !AbsorbsRight(l.blocks, b);
    assert n in Live(l) <==> n in Live(m);
  }

  // ------------------------------------------------------------------ round trip

  /** Freeing what was just allocated from a free block restores every block,
      free or live, and the segment vector, whether or not it was split. */
  lemma AllocFreeRestores(l: Layout, b: int, total: nat)
    requires WellFormed(l) && FreeFit(l, b, total) && Request(total)
    ensures IsLive(AllocAt(l, b, total), b)
    ensures FreeAt(AllocAt(l, b, total), b) == l
  {
    var m := TakenOnce(l, b, total);
    AllocFreeSegments(l, b, total);
    UndoneSame(l, m, b);
  }

  lemma TakenOnce(l: Layout, b: int, total: nat) returns (m: Layout)
    requires WellFormed(l) && FreeFit(l, b, total) && Request(total)
    ensures m == AllocAt(l, b, total) && WellFormed(m) == true
    ensures b !in Live(l) && b in m.blocks && m.blocks[b].size > 0
    ensures Live(m) == Live(l)[b := Held(m.blocks[b].size, m.blocks[b].home)]
  {
    AllocKeepsWellFormed(l, b, total);
    m := AllocAt(l, b, total);
  }

  lemma UndoneSame(l: Layout, m: Layout, b: int)
    requires WellFormed(l) && WellFormed(m) == true && b !in Live(l) && b in m.blocks && m.blocks[b].size > 0
    requires Live(m) == Live(l)[b := Held(m.blocks[b].size, m.blocks[b].home)]
    requires FreeAt(m, b).segs == l.segs
    ensures IsLive(m, b) && FreeAt(m, b) == l
  {
    Undone(l, m, b, l);
  }

  /** Freeing a block that l does not hold, out of a heap m that holds l's blocks
      and that one, gives back t, if t holds l's blocks in the segments that remain. */
  lemma Undone(l: Layout, m: Layout, b: int, t: Layout)
    requires WellFormed(m) && Tiled(t) && Coalesced(t.blocks) && Live(t) == Live(l)
    requires b !in Live(l) && b in m.blocks && m.blocks[b].size > 0
    requires Live(m) == Live(l)[b := Held(m.blocks[b].size, m.blocks[b].home)]
    requires FreeAt(m, b).segs == t.segs
    ensures IsLive(m, b) && FreeAt(m, b) == t
  {
    assert b in Live(m);
    FreeKeepsWellFormed(m, b);
    HoldAgain(Live(l), b, Held(m.blocks[b].size, m.blocks[b].home));
    Restored(FreeAt(m, b), t);
  }

  lemma Restored(r: Layout, t: Layout)
    requires WellFormed(r) && Tiled(t) && Coalesced(t.blocks)
    requires Live(r) == Live(t) && r.segs == t.segs
    ensures r == t
  {
    Canonical(r, t);
  }

  lemma HoldAgain(live: map<int, Held>, b: int, h: Held)
    requires b !in live
    ensures live[b := h] - {b} == live
  {}

  lemma AllocFreeSegments(l: Layout, b: int, total: nat)
    requires WellFormed(l) && FreeFit(l, b, total) && Request(total)
    ensures FreeAt(AllocAt(l, b, total), b).segs == l.segs
  {
    assert Opened(l, 0);
    if |l.segs| > 1 {
      assert !Whole(b, l.blocks[b]);
      NotWholeAgain(l.blocks, b, total);
      var m := AllocAt(l, b, total);
      FreeReleases(m, b);
    }
  }

  /** Freeing returns a segment only when the merged block fills it. */
  lemma FreeReleases(l: Layout, b: int)
    requires b in l.blocks && l.blocks[b].size > 0
    ensures FreeAt(l, b).segs == l.segs ||
            (var c := MergeStart(l.blocks, b);
             && |l.segs| > 1 && FreeAt(l, b).segs == Erase(l.segs, c)
             && c == l.blocks[c].home && MergeEnd(l.blocks, b) == c + SEGMENT_SIZE)
  {}

  /** A block freed right after it was taken merges back to the block it was. */
  lemma NotWholeAgain(bs: Blocks, b: int, total: nat)
    requires Shaped(bs) && Linked(bs) && Coalesced(bs) && b in bs && bs[b].free
    requires Request(total) && total <= bs[b].size
    ensures var bs' := AllocAt(Layout(bs, []), b, total).blocks;
            MergeStart(bs', b) == b && MergeEnd(bs', b) == b + bs[b].size
  {
    assert RightOK(bs, b) && !AbsorbsRight(bs, b);
    assert LeftOK(bs, b);
    if !First(b, bs[b]) {
      assert !(bs[b - bs[b].prev].free && AbsorbsRight(bs, b - bs[b].prev));
    }
    if bs[b].size - total >= MIN_BLOCK_SIZE {
      SplitMergesBack(bs, b, total);
    }
  }

  lemma SplitMergesBack(bs: Blocks, b: int, total: nat)
    requires Apart(bs) && b in bs && InSegment(b, bs[b]) && 0 < total < bs[b].size
    requires RightOK(bs, b) && LeftOK(bs, b) && !AbsorbedByLeft(bs, b)
    ensures MergeStart(Split(bs, b, total), b) == b
    ensures MergeEnd(Split(bs, b, total), b) == b + bs[b].size
  {
    Around(bs, b);
    assert b + total !in bs;
  }

  /** The same when the allocation had to map a segment: the segment goes back,
      unless the heap was empty, and then it stays as one free block. */
  lemma AllocFreshFreeRestores(l: Layout, base: int, total: nat)
    requires WellFormed(l) && FreshBase(l, base) && Request(total)
    requires forall x :: !FreeFit(l, x, total)
    ensures IsLive(AllocAt(AddSegment(l, base), base, total), base)
    ensures var r := FreeAt(AllocAt(AddSegment(l, base), base, total), base);
            r == if l.segs != [] then l else AddSegment(l, base)
  {
    AllocFreshKeepsWellFormed(l, base, total);
    FreshSegments(l, base, total);
    AddLive(l, base);
    var m := AllocAt(AddSegment(l, base), base, total);
    if l.segs != [] {
      Undone(l, m, base, l);
    } else {
      Undone(l, m, base, AddSegment(l, base));
    }
  }

  lemma FreshSegments(l: Layout, base: int, total: nat)
    requires WellFormed(l) && FreshBase(l, base) && Request(total)
    ensures var r := FreeAt(AllocAt(AddSegment(l, base), base, total), base);
            r.segs == if l.segs != [] then l.segs else [base]
  {
    FreshMerge(l, base, total);
    EraseLast(l.segs, base);
  }

  lemma FreshMerge(l: Layout, base: int, total: nat)
    requires WellFormed(l) && FreshBase(l, base) && Request(total)
    ensures var m := AllocAt(AddSegment(l, base), base, total);
            && MergeStart(m.blocks, base) == base
            && MergeEnd(m.blocks, base) == base + SEGMENT_SIZE
            && m.blocks[base].home == base
  {}

  lemma EraseLast(segs: seq<int>, s: int)
    requires s !in segs
    ensures Erase(segs + [s], s) == segs
  {
    if segs != [] {
      assert (segs + [s])[1..] == segs[1..] + [s];
      EraseLast(segs[1..], s);
    }
  }

  // ------------------------------------------------------------------------ runs

  datatype Step =
    | Take(b: int, total: nat)
    | TakeFresh(base: int, total: nat)
    | Release(b: int)

  /** The steps the public operations can take; which free block is taken, and
      where the system maps a segment, is left open. */
  ghost predicate Enabled(l: Layout, step: Step) {
    match step
    case Take(b, total) => FreeFit(l, b, total) && Request(total)
    case TakeFresh(base, total) =>
      FreshBase(l, base) && Request(total) && forall x :: !FreeFit(l, x, total)
    case Release(b) => IsLive(l, b) && l.blocks[b].size > 0
  }

  ghost function Apply(l: Layout, step: Step): Layout
    requires Enabled(l, step)
  {
    match step
    case Take(b, total) => AllocAt(l, b, total)
    case TakeFresh(base, total) => AllocAt(AddSegment(l, base), base, total)
    case Release(b) => FreeAt(l, b)
  }

  ghost predicate Legal(l: Layout, run: seq<Step>)
    decreases |run|
  {
    run == [] || (Enabled(l, run[0]) && Legal(Apply(l, run[0]), run[1..]))
  }

  ghost function Exec(l: Layout, run: seq<Step>): Layout
    requires Legal(l, run)
    decreases |run|
  {
    if run == [] then l else Exec(Apply(l, run[0]), run[1..])
  }

  const EMPTY := Layout(map[], [])

  /** Every layout reached by any run is well formed. */
  lemma {:induction false} ReachableWellFormed(l: Layout, run: seq<Step>)
    requires WellFormed(l) && Legal(l, run)
    ensures WellFormed(Exec(l, run))
    decreases |run|
  {
    if run != [] {
      match run[0] {
        case Take(b, total) => AllocKeepsWellFormed(l, b, total);
        case TakeFresh(base, total) => AllocFreshKeepsWellFormed(l, base, total);
        case Release(b) => FreeKeepsWellFormed(l, b);
      }
      ReachableWellFormed(Apply(l, run[0]), run[1..]);
    }
  }

  lemma EmptyWellFormed()
    ensures WellFormed(EMPTY)
  {}

  /** No step on another block moves, resizes or frees a live block. */
  lemma StepKeepsOthers(l: Layout, step: Step, b: int)
    requires WellFormed(l) && Enabled(l, step) && b in Live(l) && step != Release(b)
    ensures b in Live(Apply(l, step)) && Live(Apply(l, step))[b] == Live(l)[b]
  {
    match step {
      case Take(c, total) => AllocKeepsWellFormed(l, c, total);
      case TakeFresh(base, total) => AllocFreshKeepsWellFormed(l, base, total);
      case Release(c) => FreeKeepsWellFormed(l, c);
    }
  }

  ghost function Releases(order: seq<int>): seq<Step> {
    if order == [] then [] else [Release(order[0])] + Releases(order[1..])
  }

  /** A heap whose live blocks are all gone is one segment in one free block. */
  lemma NothingLive(l: Layout)
    requires WellFormed(l) && Live(l) == map[] && l.segs != []
    ensures |l.segs| == 1
    ensures l.blocks == map[l.segs[0] := Blk(SEGMENT_SIZE, 0, true, l.segs[0])]
  {
    assert Opened(l, 0);
    forall s | s in l.segs
      ensures l.blocks[s].free && Whole(s, l.blocks[s])
    {
      Around(l.blocks, s);
      assert s !in Live(l) && RightOK(l.blocks, s) && !AbsorbsRight(l.blocks, s);
      assert s + l.blocks[s].size !in Live(l);
    }
    var s := l.segs[0];
    assert s in l.segs && LeftOK(l.blocks, s);
    forall b | b in l.blocks
      ensures b == s
    {
      assert l.blocks[b].home in l.segs;
      Around(l.blocks, b);
    }
  }

  lemma RestOfOrder(l: Layout, order: seq<int>)
    requires forall i, j :: 0 <= i < j < |order| ==> order[i] != order[j]
    requires order != [] && forall b :: b in order <==> b in Live(l)
    ensures forall c :: c in order[1..] <==> c in Live(l) - {order[0]}
  {
    assert forall c :: c in order <==> c == order[0] || c in order[1..];
  }

  lemma ExecFirst(l: Layout, step: Step, rest: seq<Step>)
    requires Enabled(l, step) && Legal(Apply(l, step), rest)
    ensures Legal(l, [step] + rest) && Exec(l, [step] + rest) == Exec(Apply(l, step), rest)
  {
    assert ([step] + rest)[1..] == rest;
  }

  /** Freeing all live blocks, in any order, is a legal run and ends in one
      segment holding one free block. */
  lemma FreeAllInAnyOrder(l: Layout, order: seq<int>)
    requires WellFormed(l) && l.segs != []
    requires forall i, j :: 0 <= i < j < |order| ==> order[i] != order[j]
    requires forall b :: b in order <==> b in Live(l)
    ensures Legal(l, Releases(order))
    ensures var r := Exec(l, Releases(order));
            |r.segs| == 1 && r.blocks == map[r.segs[0] := Blk(SEGMENT_SIZE, 0, true, r.segs[0])]
  {
    FreeAllLive(l, order);
    NothingLive(Exec(l, Releases(order)));
  }

  lemma {:induction false} FreeAllLive(l: Layout, order: seq<int>)
    requires WellFormed(l) && l.segs != []
    requires forall i, j :: 0 <= i < j < |order| ==> order[i] != order[j]
    requires forall b :: b in order <==> b in Live(l)
    ensures Legal(l, Releases(order))
    ensures var r := Exec(l, Releases(order));
            WellFormed(r) && r.segs != [] && Live(r) == map[]
    decreases |order|
  {
    assert Opened(l, 0);
    if order == [] {
      assert forall b :: b !in Live(l);
    } else {
      var b := order[0];
      assert b in Live(l) by { assert b in order; }
      FreeKeepsWellFormed(l, b);
      RestOfOrder(l, order);
      FreeRest(l, FreeAt(l, b), order);
    }
  }

  lemma FreeRest(l: Layout, l': Layout, order: seq<int>)
    requires order != [] && Enabled(l, Release(order[0])) && l' == Apply(l, Release(order[0]))
    requires WellFormed(l') && l'.segs != []
    requires forall i, j :: 0 <= i < j < |order| ==> order[i] != order[j]
    requires forall c :: c in order[1..] <==> c in Live(l')
    ensures Legal(l, Releases(order))
    ensures var r := Exec(l, Releases(order));
            WellFormed(r) && r.segs != [] && Live(r) == map[]
    decreases |order|, 0
  {
    FreeAllLive(l', order[1..]);
    ExecFirst(l, Release(order[0]), Releases(order[1..]));
  }

  // --------------------------------------------------------- free blocks are gaps

  ghost predicate LiveByte(l: Layout, a: int) {
    exists b :: b in l.blocks && !l.blocks[b].free && b <= a < b + l.blocks[b].size
  }

  /** A stretch of segment s without live bytes that cannot be extended. */
  ghost predicate MaximalGap(l: Layout, s: int, lo: int, hi: int) {
    && s <= lo < hi <= s + SEGMENT_SIZE
    && (forall a :: lo <= a < hi ==> !LiveByte(l, a))
    && (lo == s || LiveByte(l, lo - 1))
    && (hi == s + SEGMENT_SIZE || LiveByte(l, hi))
  }

  ghost predicate FreeBlock(l: Layout, s: int, lo: int, hi: int) {
    lo in l.blocks && l.blocks[lo].free && l.blocks[lo].home == s && lo + l.blocks[lo].size == hi
  }

  lemma NotLiveInside(l: Layout, b: int, a: int)
    requires Shaped(l.blocks) && b in l.blocks && l.blocks[b].free && b <= a < b + l.blocks[b].size
    ensures !LiveByte(l, a)
  {
    Around(l.blocks, b);
  }

  lemma FreeBlockIsGap(l: Layout, s: int, lo: int, hi: int)
    requires WellFormed(l) && FreeBlock(l, s, lo, hi)
    ensures MaximalGap(l, s, lo, hi)
  {
    assert Opened(l, 0);
    forall a | lo <= a < hi
      ensures !LiveByte(l, a)
    {
      NotLiveInside(l, lo, a);
    }
    assert LeftOK(l.blocks, lo) && RightOK(l.blocks, lo) && !AbsorbsRight(l.blocks, lo);
    if lo != s {
      var p := lo - l.blocks[lo].prev;
      assert !(l.blocks[p].free && AbsorbsRight(l.blocks, p));
      assert !l.blocks[p].free && p <= lo - 1 < p + l.blocks[p].size;
    }
    if hi != s + SEGMENT_SIZE {
      assert !l.blocks[hi].free && hi <= hi < hi + l.blocks[hi].size;
    }
  }

  /** Every mapped address lies in a block. */
  lemma {:induction false} Covered(l: Layout, b: int, a: int) returns (c: int)
    requires Shaped(l.blocks) && Linked(l.blocks) && b in l.blocks
    requires b <= a < l.blocks[b].home + SEGMENT_SIZE
    ensures c in l.blocks && l.blocks[c].home == l.blocks[b].home && c <= a < c + l.blocks[c].size
    decreases a - b
  {
    if a < b + l.blocks[b].size {
      c := b;
    } else {
      assert RightOK(l.blocks, b);
      c := Covered(l, b + l.blocks[b].size, a);
    }
  }

  /** The free blocks of a segment are exactly the maximal gaps between its live
      blocks. */
  lemma FreeBlocksAreMaximalGaps(l: Layout, s: int, lo: int, hi: int)
    requires WellFormed(l) && s in l.segs
    ensures FreeBlock(l, s, lo, hi) <==> MaximalGap(l, s, lo, hi)
  {
    assert Opened(l, 0);
    if FreeBlock(l, s, lo, hi) {
      FreeBlockIsGap(l, s, lo, hi);
    }
    if MaximalGap(l, s, lo, hi) {
      var c := Covered(l, s, lo);
      assert l.blocks[c].free by { assert !LiveByte(l, lo); }
      var e := c + l.blocks[c].size;
      FreeBlockIsGap(l, s, c, e);
      assert c < lo ==> !LiveByte(l, lo - 1);
      assert hi < e ==> !LiveByte(l, hi);
      assert e < hi ==> !LiveByte(l, e);
    }
  }

  // ------------------------------------------------------------------- counting

  ghost function LiveSet(l: Layout): set<int> { set b | b in l.blocks && !l.blocks[b].free }

  ghost function SegSet(l: Layout): set<int> { set s | s in l.segs }

  lemma SegSetSize(l: Layout)
    requires SegsApart(l.segs)
    ensures |SegSet(l)| == |l.segs|
  {
    forall i, j | 0 <= i < j < |l.segs|
      ensures l.segs[i] != l.segs[j]
    {
      assert Beyond(l.segs[i], l.segs[j]);
    }
    DistinctSize(l.segs);
  }

  /** There are never more free blocks than live blocks and segments together. */
  lemma FreeCountBound(l: Layout)
    requires WellFormed(l)
    ensures |FreeKeys(l.blocks)| <= |LiveSet(l)| + |l.segs|
  {
    var inner := set b | b in FreeKeys(l.blocks) && !Last(b, l.blocks[b]);
    var outer := set b | b in FreeKeys(l.blocks) && Last(b, l.blocks[b]);
    assert FreeKeys(l.blocks) == inner + outer;
    InnerFreeCount(l, inner);
    OuterFreeCount(l, outer);
  }

  lemma InnerFreeCount(l: Layout, inner: set<int>)
    requires WellFormed(l) && forall b :: b in inner ==> b in FreeKeys(l.blocks) && !Last(b, l.blocks[b])
    ensures |inner| <= |LiveSet(l)|
  {
    var right := b => if b in l.blocks then b + l.blocks[b].size else b;
    forall b | b in inner
      ensures right(b) in LiveSet(l)
    {
      NextIsLive(l, b);
    }
    forall b, c | b in inner && c in inner && b != c
      ensures right(b) != right(c)
    {
      EndsApart(l, b, c);
    }
    Injection(inner, LiveSet(l), right);
  }

  lemma NextIsLive(l: Layout, b: int)
    requires WellFormed(l) && b in l.blocks && l.blocks[b].free && !Last(b, l.blocks[b])
    ensures IsLive(l, b + l.blocks[b].size)
  {
    assert Opened(l, 0);
    assert RightOK(l.blocks, b) && !AbsorbsRight(l.blocks, b);
  }

  /** No two blocks end in one place, and only one block is the last of a segment. */
  lemma EndsApart(l: Layout, b: int, c: int)
    requires Tiled(l) && b in l.blocks && c in l.blocks && b != c
    ensures b + l.blocks[b].size != c + l.blocks[c].size
    ensures Last(b, l.blocks[b]) && Last(c, l.blocks[c]) ==> l.blocks[b].home != l.blocks[c].home
  {
    assert Opened(l, 0);
    Around(l.blocks, b);
  }

  lemma OuterFreeCount(l: Layout, outer: set<int>)
    requires Tiled(l) && forall b :: b in outer ==> b in l.blocks && Last(b, l.blocks[b])
    ensures |outer| <= |l.segs|
  {
    assert Opened(l, 0);
    var home := b => if b in l.blocks then l.blocks[b].home else b;
    forall b, c | b in outer && c in outer && b != c
      ensures home(b) != home(c)
    {
      EndsApart(l, b, c);
    }
    Injection(outer, SegSet(l), home);
    SegSetSize(l);
  }

  /** There are never more segments than live blocks, except that one segment may
      stay without any. */
  lemma SegmentCountBound(l: Layout)
    requires WellFormed(l)
    ensures |l.segs| <= 1 || |l.segs| <= |LiveSet(l)|
  {
    assert Opened(l, 0);
    var bs := l.blocks;
    if |l.segs| > 1 {
      var pick := s => if s in bs && bs[s].free then s + bs[s].size else s;
      forall s | s in SegSet(l)
        ensures pick(s) in LiveSet(l) && bs[pick(s)].home == s
      {
        assert RightOK(bs, s) && !(bs[s].free && AbsorbsRight(bs, s));
      }
      Injection(SegSet(l), LiveSet(l), pick);
      SegSetSize(l);
    }
  }

  // --------------------------------------------------------------------- totals

  ghost function Sizes(bs: Blocks): int -> int {
    b => if b in bs then bs[b].size else 0
  }

  /** The blocks of segment s that start below a. */
  ghost function Below(l: Layout, s: int, a: int): set<int> {
    set b | b in l.blocks && l.blocks[b].home == s && b < a
  }

  lemma {:induction false} BelowTotal(l: Layout, b: int)
    requires Shaped(l.blocks) && Linked(l.blocks) && b in l.blocks
    ensures Sum(Below(l, l.blocks[b].home, b), Sizes(l.blocks)) == b - l.blocks[b].home
    decreases b - l.blocks[b].home
  {
    var s := l.blocks[b].home;
    assert LeftOK(l.blocks, b);
    if First(b, l.blocks[b]) {
      assert Below(l, s, b) == {};
    } else {
      var p := b - l.blocks[b].prev;
      Around(l.blocks, p);
      BelowTotal(l, p);
      assert Below(l, s, b) == Below(l, s, p) + {p};
      SumInsert(Below(l, s, p), Sizes(l.blocks), p);
    }
  }

  ghost function Within(l: Layout, s: int): set<int> {
    set b | b in l.blocks && l.blocks[b].home == s
  }

  /** The blocks of each segment add up to the segment size. */
  lemma SegmentTotal(l: Layout, s: int)
    requires Tiled(l) && s in l.segs
    ensures Sum(Within(l, s), Sizes(l.blocks)) == SEGMENT_SIZE
  {
    assert Opened(l, 0);
    var c := Covered(l, s, s + SEGMENT_SIZE - 1);
    Around(l.blocks, c);
    BelowTotal(l, c);
    assert Within(l, s) == Below(l, s, c) + {c};
    SumInsert(Below(l, s, c), Sizes(l.blocks), c);
  }

  ghost function WithinAny(l: Layout, ss: set<int>): set<int> {
    set b | b in l.blocks && l.blocks[b].home in ss
  }

  lemma WithinSplit(l: Layout, ss: set<int>, s: int)
    requires s in ss
    ensures Sum(WithinAny(l, ss), Sizes(l.blocks)) ==
            Sum(WithinAny(l, ss - {s}), Sizes(l.blocks)) + Sum(Within(l, s), Sizes(l.blocks))
  {
    assert WithinAny(l, ss) == WithinAny(l, ss - {s}) + Within(l, s);
    SumSplit(WithinAny(l, ss - {s}), Within(l, s), Sizes(l.blocks));
  }

  lemma {:induction false} SegmentsTotal(l: Layout, ss: set<int>)
    requires forall s :: s in ss ==> Sum(Within(l, s), Sizes(l.blocks)) == SEGMENT_SIZE
    ensures Sum(WithinAny(l, ss), Sizes(l.blocks)) == |ss| * SEGMENT_SIZE
    decreases ss
  {
    if ss == {} {
      assert WithinAny(l, ss) == {};
    } else {
      var s := Pick(ss);
      SegmentsTotal(l, ss - {s});
      WithinSplit(l, ss, s);
      var n := |ss - {s}|;
      assert |ss| == n + 1 && (n + 1) * SEGMENT_SIZE == n * SEGMENT_SIZE + SEGMENT_SIZE;
    }
  }

  /** Free bytes are the mapped bytes that are not live. */
  lemma FreeBytes(l: Layout)
    requires Tiled(l)
    ensures Sum(FreeKeys(l.blocks), Sizes(l.blocks)) == |l.segs| * SEGMENT_SIZE - Sum(LiveSet(l), Sizes(l.blocks))
  {
    assert Opened(l, 0);
    forall s | s in SegSet(l)
      ensures Sum(Within(l, s), Sizes(l.blocks)) == SEGMENT_SIZE
    {
      SegmentTotal(l, s);
    }
    SegmentsTotal(l, SegSet(l));
    SegSetSize(l);
    assert forall b :: b in l.blocks ==> l.blocks[b].home in SegSet(l);
    assert WithinAny(l, SegSet(l)) == FreeKeys(l.blocks) + LiveSet(l);
    SumSplit(FreeKeys(l.blocks), LiveSet(l), Sizes(l.blocks));
  }
}
