/** The small tier as it runs: intrusive free lists, shards with a bump region, and the
    caches of one thread. */
module Pools {
  import opened SystemMemory
  import opened Shards
  import opened PoolSystem
  import opened Sums

  ghost predicate LinkAt(next: map<int, int>, q: seq<int>, k: int)
    requires 0 <= k < |q|
  {
    q[k] != 0 && q[k] in next && next[q[k]] == if k + 1 < |q| then q[k + 1] else 0
  }

  /** The list from head visits exactly the blocks of q, each once. */
  ghost predicate ListOK(next: map<int, int>, head: int, q: seq<int>) {
    && NoDup(q) && head == (if q == [] then 0 else q[0])
    && forall k :: 0 <= k < |q| ==> LinkAt(next, q, k)
  }

  lemma PushList(next: map<int, int>, head: int, q: seq<int>, b: int)
    requires ListOK(next, head, q) && b != 0 && b !in q
    ensures ListOK(next[b := head], b, [b] + q)
  {
    var next', q' := next[b := head], [b] + q;
    forall k | 0 <= k < |q'|
      ensures LinkAt(next', q', k)
    {
      if k > 0 { assert LinkAt(next, q, k - 1) && q'[k] == q[k - 1]; }
    }
  }

  lemma PopList(next: map<int, int>, head: int, q: seq<int>)
    requires ListOK(next, head, q) && q != []
    ensures LinkAt(next, q, 0) && ListOK(next, next[head], q[1..])
  {
    assert LinkAt(next, q, 0);
    forall k | 0 <= k < |q[1..]|
      ensures LinkAt(next, q[1..], k)
    {
      assert LinkAt(next, q, k + 1);
    }
  }

  /** Only the first words of the blocks bs may have been written. */
  ghost predicate OnlyLinks(next: map<int, int>, next': map<int, int>, bs: seq<int>) {
    forall x :: x !in bs ==> (x in next' <==> x in next) && (x in next ==> next'[x] == next[x])
  }

  /** A singly linked list threaded through the first word of its blocks. */
  class FreeList {
    var head: int
    var size: nat
    /** The first word of every block that was pushed. */
    var next: map<int, int>
    /** The blocks on the list, from the head. */
    var contents: seq<int>

    ghost predicate Valid()
      reads this
    {
      size == |contents| && ListOK(next, head, contents)
    }

    constructor ()
      ensures Valid() && contents == []
    {
      head, size, next, contents := 0, 0, map[], [];
    }

    /** push writes the first word of the block and nothing else. */
    method Push(block: int)
      requires Valid() && block != 0 && block !in contents
      modifies this
      ensures Valid() && contents == [block] + old(contents)
      ensures next == old(next)[block := old(head)]
    {
      PushList(next, head, contents, block);
      next := next[block := head];
      head := block;
      size := size + 1;
      contents := [block] + contents;
    }

    method Pop() returns (block: int)
      requires Valid()
      modifies this
      ensures Valid() && next == old(next)
      ensures old(contents) == [] ==> block == 0 && contents == []
      ensures old(contents) != [] ==> block == old(contents)[0] && block != 0 && contents == old(contents)[1..]
    {
      if contents != [] { PopList(next, head, contents); }
      if head == 0 {
        return 0;
      }
      block := head;
      head := next[block];
      size := size - 1;
      contents := contents[1..];
    }

    /** popBatch takes from the front as many as there are, up to the length of out. */
    method PopBatch(out: array<int>) returns (count: nat)
      requires Valid()
      modifies this, out
      ensures Valid() && next == old(next)
      ensures count == if |old(contents)| < out.Length then |old(contents)| else out.Length
      ensures out[..count] == old(contents)[..count] && contents == old(contents)[count..]
    {
      count := 0;
      while count < out.Length
        invariant 0 <= count <= out.Length && count <= |old(contents)|
        invariant Valid() && next == old(next)
        invariant out[..count] == old(contents)[..count] && contents == old(contents)[count..]
      {
        var block := Pop();
        if block == 0 {
          break;
        }
        out[count] := block;
        count := count + 1;
        assert out[..count] == out[..count - 1] + [block];
      }
    }
  }

  // ----------------------------------------------------------------------- bump region

  /** The test on the bump cursor finds exactly the exhausted runs. */
  lemma RoomTest(stride: nat, cut: nat)
    requires StrideOK(stride) && cut <= PerRun(stride)
    ensures RUN_SIZE - cut * stride < stride <==> cut == PerRun(stride)
  {
    var p := PerRun(stride);
    assert RUN_SIZE == p * stride + RUN_SIZE % stride;
    if cut < p { SlotsApart(cut, p, stride); }
  }

  // ------------------------------------------------------------------ batches in progress

  /** After the blocks bs, whatever the system answers from now on, the batch begun in
      state s continues as a smaller batch in state v. */
  ghost predicate Underway(s: Shard, stride: nat, n: nat, answers: seq<int>, v: Shard, bs: seq<int>)
    requires stride > 0
  {
    |bs| <= n && forall rest :: Continues(s, stride, n, answers, v, bs, rest)
  }

  ghost predicate Continues(s: Shard, stride: nat, n: nat, answers: seq<int>, v: Shard, bs: seq<int>, rest: seq<int>)
    requires stride > 0 && |bs| <= n
  {
    var (w, cs) := TakeBatch(v, stride, n - |bs|, rest);
    && TakeBatch(s, stride, n, answers + rest) == (w, bs + cs)
    && (AnswersOK(v, stride, n - |bs|, rest) ==> AnswersOK(s, stride, n, answers + rest))
  }

  lemma UnderwayStart(s: Shard, stride: nat, n: nat)
    requires stride > 0
    ensures Underway(s, stride, n, [], s, [])
  {
    var none: seq<int> := [];
    forall rest: seq<int>
      ensures Continues(s, stride, n, [], s, [], rest)
    {
      assert none + rest == rest && none + TakeBatch(s, stride, n, rest).1 == TakeBatch(s, stride, n, rest).1;
    }
  }

  /** What one take adds to the answers used: a run, if one was asked for and granted. */
  function Used(v: Shard, stride: nat, answer: int): seq<int>
    requires stride > 0
  {
    if v.free == [] && Exhausted(v, stride) then [answer] else []
  }

  lemma UnderwayStep(s: Shard, stride: nat, n: nat, answers: seq<int>, v: Shard, bs: seq<int>, answer: int)
    requires stride > 0 && Underway(s, stride, n, answers, v, bs) && |bs| < n
    requires Take(v, stride, answer).1 != 0
    requires answer != 0 ==> FreshRun(v.runs, answer)
    ensures var (v', b) := Take(v, stride, answer);
            Underway(s, stride, n, answers + Used(v, stride, answer), v', bs + [b])
  {
    var (v', b) := Take(v, stride, answer);
    forall rest: seq<int>
      ensures Continues(s, stride, n, answers + Used(v, stride, answer), v', bs + [b], rest)
    {
      NextOfBatch(v, stride, n - |bs|, answer, rest);
      ContinuesOn(s, stride, n, answers, v, bs, answer, rest);
    }
  }

  lemma ContinuesOn(s: Shard, stride: nat, n: nat, answers: seq<int>, v: Shard, bs: seq<int>, answer: int, rest: seq<int>)
    requires stride > 0 && |bs| < n
    requires Continues(s, stride, n, answers, v, bs, Used(v, stride, answer) + rest)
    requires NextTaken(v, stride, n - |bs|, answer, rest)
    ensures var (v', b) := Take(v, stride, answer);
            Continues(s, stride, n, answers + Used(v, stride, answer), v', bs + [b], rest)
  {
    var (v', b) := Take(v, stride, answer);
    var used := Used(v, stride, answer);
    var cs := TakeBatch(v', stride, n - |bs| - 1, rest).1;
    assert answers + used + rest == answers + (used + rest);
    assert bs + ([b] + cs) == bs + [b] + cs;
  }

  ghost predicate NextTaken(v: Shard, stride: nat, n: nat, answer: int, rest: seq<int>)
    requires stride > 0 && n > 0
  {
    var (v', b) := Take(v, stride, answer);
    var used := Used(v, stride, answer);
    && TakeBatch(v, stride, n, used + rest) ==
       (TakeBatch(v', stride, n - 1, rest).0, [b] + TakeBatch(v', stride, n - 1, rest).1)
    && (AnswersOK(v', stride, n - 1, rest) ==> AnswersOK(v, stride, n, used + rest))
  }

  lemma NextOfBatch(v: Shard, stride: nat, n: nat, answer: int, rest: seq<int>)
    requires stride > 0 && n > 0 && Take(v, stride, answer).1 != 0
    requires answer != 0 ==> FreshRun(v.runs, answer)
    ensures NextTaken(v, stride, n, answer, rest)
  {
    var used := Used(v, stride, answer);
    if used == [] {
      assert used + rest == rest;
      assert Take(v, stride, Needed(v, stride, rest)) == Take(v, stride, answer);
    } else {
      assert (used + rest)[0] == answer && (used + rest)[1..] == rest;
    }
  }

  /** The batch ends when it is full or when the next take fails. */
  lemma UnderwayEnd(s: Shard, stride: nat, n: nat, answers: seq<int>, v: Shard, bs: seq<int>)
    requires stride > 0 && Underway(s, stride, n, answers, v, bs)
    requires |bs| == n || Take(v, stride, 0) == (v, 0)
    ensures TakeBatch(s, stride, n, answers) == (v, bs) && AnswersOK(s, stride, n, answers)
  {
    var none: seq<int> := [];
    BatchStops(v, stride, n - |bs|, none);
    assert Continues(s, stride, n, answers, v, bs, none);
    assert answers + none == answers && bs + none == bs;
  }

  lemma BatchStops(v: Shard, stride: nat, n: nat, none: seq<int>)
    requires stride > 0 && none == [] && (n == 0 || Take(v, stride, 0) == (v, 0))
    ensures TakeBatch(v, stride, n, none) == (v, []) && AnswersOK(v, stride, n, none)
  {
    if n > 0 { BatchStops(v, stride, n - 1, none); }
  }

  /** The system maps what it mapped before, and the new runs, each of them away from all
      that was mapped. */
  ghost predicate RunsGrown(before: map<int, nat>, after: map<int, nat>, runs: seq<int>, runs': seq<int>) {
    && runs <= runs'
    && (forall b :: b in before ==> b in after && after[b] == before[b])
    && (forall b :: b in after && b !in before ==> b in runs')
    && (forall b :: b in runs' && b !in runs ==> Fresh(before, b, RUN_SIZE))
  }

  lemma RunsGrownTwice(m0: map<int, nat>, m1: map<int, nat>, m2: map<int, nat>, r0: seq<int>, r1: seq<int>, r2: seq<int>)
    requires RunsGrown(m0, m1, r0, r1) && RunsGrown(m1, m2, r1, r2)
    ensures RunsGrown(m0, m2, r0, r2)
  {
    forall b | b in r2 && b !in r0
      ensures Fresh(m0, b, RUN_SIZE)
    {
      if b !in r1 {
        forall x | x in m0
          ensures Disjoint(b, RUN_SIZE, x, m0[x])
        {
          assert x in m1 && m1[x] == m0[x];
        }
      }
    }
  }

  // ------------------------------------------------------------------------------ shard

  class PoolShard {
    const freeList: FreeList
    var bumpCursor: int
    var bumpEnd: int
    var runs: seq<int>
    /** The blocks carved so far, and how many of them from the last run. */
    ghost var carved: seq<Cell>
    ghost var cut: nat

    ghost function View(): Shard
      reads this, freeList
    {
      Shard(freeList.contents, carved, runs, cut)
    }

    ghost predicate Valid(stride: nat)
      reads this, freeList
    {
      freeList.Valid() && ShardOK(View(), stride) && CursorOK(stride)
    }

    /** The bump region is the rest of the last run. */
    ghost predicate CursorOK(stride: nat)
      reads this
    {
      && (runs == [] ==> bumpCursor == 0)
      && (runs != [] ==>
            && bumpCursor == runs[|runs| - 1] + cut * stride && bumpCursor > 0
            && bumpEnd == runs[|runs| - 1] + RUN_SIZE)
    }

    constructor (stride: nat)
      requires StrideOK(stride)
      ensures Valid(stride) && View() == EMPTY && fresh(freeList)
    {
      freeList := new FreeList();
      bumpCursor, bumpEnd, runs, carved, cut := 0, 0, [], [], 0;
    }

    /** Every run is a mapping of the system. */
    ghost predicate Mapped(os: Os)
      reads this, os
    {
      forall i :: 0 <= i < |runs| ==> runs[i] in os.mapped && os.mapped[runs[i]] == RUN_SIZE
    }

    /** refill */
    method MapRun(os: Os) returns (base: int)
      requires os.Valid() && Mapped(os) && RunsApart(runs)
      modifies this`bumpCursor, this`bumpEnd, this`runs, this`cut, os
      ensures os.Valid() && Mapped(os)
      ensures base == 0 ==> runs == old(runs) && cut == old(cut) && bumpCursor == old(bumpCursor) &&
                            bumpEnd == old(bumpEnd) && os.mapped == old(os.mapped) &&
                            os.refusals > old(os.refusals)
      ensures base != 0 ==> FreshRun(old(runs), base) && Fresh(old(os.mapped), base, RUN_SIZE)
      ensures base != 0 ==> runs == old(runs) + [base] && cut == 0 && bumpCursor == base &&
                            bumpEnd == base + RUN_SIZE && os.mapped == old(os.mapped)[base := RUN_SIZE]
      ensures os.refusals >= old(os.refusals) && RunsGrown(old(os.mapped), os.mapped, old(runs), runs)
    {
      RoundedWhole(RUN_SIZE, os.page);
      ghost var mapped := os.mapped;
      base := os.Map(RUN_SIZE);
      if base == 0 {
        return;
      }
      forall i | 0 <= i < |runs|
        ensures runs[i] + RUN_SIZE <= base || base + RUN_SIZE <= runs[i]
      {
        assert runs[i] in mapped;
      }
      bumpCursor, bumpEnd, runs, cut := base, base + RUN_SIZE, runs + [base], 0;
    }

    method TakeBlock(stride: nat, os: Os) returns (block: int, ghost answer: int)
      requires Valid(stride) && os.Valid() && Mapped(os)
      modifies this, freeList, os
      ensures Valid(stride) && os.Valid() && Mapped(os)
      ensures (View(), block) == Take(old(View()), stride, answer)
      ensures answer != 0 ==> FreshRun(old(runs), answer)
      ensures block == 0 ==> answer == 0 && View() == old(View()) && os.refusals > old(os.refusals)
      ensures block == 0 ==> old(View()).free == [] && Exhausted(old(View()), stride)
      ensures os.refusals >= old(os.refusals) && freeList.next == old(freeList.next)
      ensures RunsGrown(old(os.mapped), os.mapped, old(runs), runs)
    {
      answer := 0;
      ghost var v := View();
      block := freeList.Pop();
      if block != 0 {
        FreeListApart(v, v.free[1..], stride);
        return;
      }
      var room;
      room, answer := MakeRoom(stride, os);
      if room {
        if answer != 0 { RefillKeepsShard(v, stride, answer); } else { CarveKeepsShard(v, stride); }
        block := Bump(stride);
      }
    }

    /** The bump region has room for a block, if need be in a new run. */
    method MakeRoom(stride: nat, os: Os) returns (room: bool, ghost answer: int)
      requires StrideOK(stride) && cut <= PerRun(stride) && CursorOK(stride) && RunsApart(runs) && os.Valid() && Mapped(os)
      modifies this`bumpCursor, this`bumpEnd, this`runs, this`cut, os
      ensures CursorOK(stride) && os.Valid() && Mapped(os)
      ensures room <==> !Exhausted(old(View()), stride) || answer != 0
      ensures room ==> runs != []
      ensures View() == if answer != 0 then Shards.Refill(old(View()), answer) else old(View())
      ensures answer != 0 ==> Exhausted(old(View()), stride) && FreshRun(old(runs), answer)
      ensures !room ==> os.refusals > old(os.refusals)
      ensures os.refusals >= old(os.refusals) && RunsGrown(old(os.mapped), os.mapped, old(runs), runs)
    {
      answer := 0;
      RoomTest(stride, cut);
      if bumpCursor == 0 || bumpEnd - bumpCursor < stride {
        var base := MapRun(os);
        if base == 0 {
          return false, 0;
        }
        answer := base;
        assert cut * stride == 0;
      }
      room := true;
    }

    /** freeBlock, on the shard of its class. */
    method FreeBlock(stride: nat, block: int)
      requires Valid(stride) && block != 0 && block !in freeList.contents
      modifies freeList
      ensures Valid(stride) && View() == Returned(old(View()), [block])
      ensures OnlyLinks(old(freeList.next), freeList.next, [block])
    {
      FreeListApart(View(), [block] + freeList.contents, stride);
      assert PushAll(freeList.contents, [block]) == PushAll([block] + freeList.contents, [block][1..]);
      freeList.Push(block);
    }

    /** allocateBatch fills out from the front until it has n blocks or one cannot be had. */
    method AllocateBatch(stride: nat, os: Os, out: array<int>, n: nat) returns (count: nat, ghost answers: seq<int>)
      requires Valid(stride) && os.Valid() && Mapped(os) && n <= out.Length
      modifies this, freeList, os, out
      ensures Valid(stride) && os.Valid() && Mapped(os) && count <= n
      ensures (View(), out[..count]) == TakeBatch(old(View()), stride, n, answers)
      ensures AnswersOK(old(View()), stride, n, answers)
      ensures count < n ==> os.refusals > old(os.refusals)
      ensures forall i :: 0 <= i < count ==> out[i] != 0
      ensures count == 0 && n > 0 ==> old(View()).free == [] && Exhausted(old(View()), stride) && View() == old(View())
      ensures RunsGrown(old(os.mapped), os.mapped, old(runs), runs) && freeList.next == old(freeList.next)
    {
      count, answers := 0, [];
      ghost var v, w := View(), View();
      ghost var bs: seq<int> := [];
      UnderwayStart(v, stride, n);
      while count < n
        invariant 0 <= count <= n && Valid(stride) && os.Valid() && Mapped(os)
        invariant w == View() && bs == out[..count] && forall i :: 0 <= i < count ==> out[i] != 0
        invariant Underway(v, stride, n, answers, w, bs) && freeList.next == old(freeList.next)
        invariant RunsGrown(old(os.mapped), os.mapped, old(runs), runs) && os.refusals >= old(os.refusals)
        invariant count == 0 ==> w == v
      {
        ghost var m1, r1 := os.mapped, runs;
        var block, answer := TakeBlock(stride, os);
        RunsGrownTwice(old(os.mapped), m1, os.mapped, old(runs), r1, runs);
        if block == 0 {
          break;
        }
        UnderwayStep(v, stride, n, answers, w, bs, answer);
        answers := answers + Used(w, stride, answer);
        out[count] := block;
        count := count + 1;
        w, bs := View(), bs + [block];
      }
      UnderwayEnd(v, stride, n, answers, w, bs);
    }

    /** freeBatch pushes the blocks in order. */
    method FreeBatch(stride: nat, blocks: array<int>, lo: nat, hi: nat)
      requires Valid(stride) && lo <= hi <= blocks.Length
      requires NoDup(blocks[lo..hi])
      requires forall b :: b in blocks[lo..hi] ==> b != 0 && b !in freeList.contents
      modifies freeList
      ensures Valid(stride) && View() == Returned(old(View()), blocks[lo..hi])
      ensures OnlyLinks(old(freeList.next), freeList.next, blocks[lo..hi])
    {
      var i := lo;
      ghost var q, free := blocks[lo..hi], freeList.contents;
      forall k | 0 <= k < |q|
        ensures q[k] != 0 && q[k] !in freeList.contents
      {
        assert q[k] in q;
      }
      assert q[0..] == q;
      while i < hi
        invariant lo <= i <= hi && freeList.Valid() && ShardOK(View(), stride)
        invariant carved == old(carved) && runs == old(runs) && cut == old(cut)
        invariant PushAll(free, q) == PushAll(freeList.contents, q[i - lo..])
        invariant forall k :: i - lo <= k < |q| ==> q[k] != 0 && q[k] !in freeList.contents
        invariant OnlyLinks(old(freeList.next), freeList.next, q)
      {
        assert q[i - lo] == blocks[i];
        assert q[i - lo..][1..] == q[i + 1 - lo..];
        FreeListApart(View(), [blocks[i]] + freeList.contents, stride);
        freeList.Push(blocks[i]);
        i := i + 1;
      }
      assert q[hi - lo..] == [];
    }

    /** The next block of the bump region. */
    method Bump(stride: nat) returns (block: int)
      requires CursorOK(stride) && runs != [] && stride > 0
      modifies this`bumpCursor, this`carved, this`cut
      ensures block == NextCell(old(View()), stride).addr
      ensures View() == Carve(old(View()), stride) && CursorOK(stride)
    {
      block := bumpCursor;
      carved := carved + [NextCell(View(), stride)];
      bumpCursor := bumpCursor + stride;
      CutNext(cut, stride);
      cut := cut + 1;
    }
  }

  lemma CutNext(cut: nat, stride: nat)
    ensures (cut + 1) * stride == cut * stride + stride
  {}

  // ------------------------------------------------------------------------ thread cache

  /** ThreadCache::allocateBlock on a cache q: refill an empty cache, then pop. */
  function CacheAllocate(s: Shard, q: seq<int>, stride: nat, answers: seq<int>): (Shard, seq<int>, int)
    requires stride > 0
  {
    var (s1, q1) := if q == [] then TakeBatch(s, stride, BATCH_SIZE, answers) else (s, q);
    if q1 == [] then (s1, [], 0) else (s1, q1[..|q1| - 1], q1[|q1| - 1])
  }

  /** ThreadCache::freeBlock: flush the last slots of a full cache, then push. */
  function CacheFree(s: Shard, q: seq<int>, b: int): (Shard, seq<int>) {
    var keep := CACHE_CAPACITY - BATCH_SIZE;
    if |q| == CACHE_CAPACITY then (Returned(s, q[keep..]), q[..keep] + [b]) else (s, q + [b])
  }

  class ClassCache {
    const slots: array<int>
    var count: nat

    ghost predicate Valid()
      reads this
    {
      slots.Length == CACHE_CAPACITY && count <= CACHE_CAPACITY
    }

    ghost function View(): seq<int>
      reads this, slots
    {
      if count <= slots.Length then slots[..count] else []
    }

    constructor ()
      ensures Valid() && View() == [] && fresh(slots)
    {
      slots := new int[CACHE_CAPACITY];
      count := 0;
    }

    method AllocateBlock(shard: PoolShard, stride: nat, os: Os) returns (block: int, ghost answers: seq<int>)
      requires Valid() && shard.Valid(stride) && os.Valid() && shard.Mapped(os)
      modifies this, slots, shard, shard.freeList, os
      ensures Valid() && shard.Valid(stride) && os.Valid() && shard.Mapped(os)
      ensures (shard.View(), View(), block) == CacheAllocate(old(shard.View()), old(View()), stride, answers)
      ensures old(View()) == [] ==> AnswersOK(old(shard.View()), stride, BATCH_SIZE, answers)
      ensures block == 0 && old(View()) == [] ==>
                && os.refusals > old(os.refusals) && shard.View() == old(shard.View()) && View() == []
                && old(shard.View()).free == [] && Exhausted(old(shard.View()), stride)
      ensures RunsGrown(old(os.mapped), os.mapped, old(shard.runs), shard.runs)
      ensures shard.freeList.next == old(shard.freeList.next)
    {
      answers := [];
      block := 0;
      if count == 0 {
        answers := Restock(shard, stride, os);
      }
      if count > 0 {
        block := PopSlot();
      }
    }

    /** An empty cache is refilled by a batch. */
    method Restock(shard: PoolShard, stride: nat, os: Os) returns (ghost answers: seq<int>)
      requires Valid() && count == 0 && shard.Valid(stride) && os.Valid() && shard.Mapped(os)
      modifies this`count, slots, shard, shard.freeList, os
      ensures Valid() && shard.Valid(stride) && os.Valid() && shard.Mapped(os)
      ensures (shard.View(), View()) == TakeBatch(old(shard.View()), stride, BATCH_SIZE, answers)
      ensures AnswersOK(old(shard.View()), stride, BATCH_SIZE, answers)
      ensures forall i :: 0 <= i < count ==> slots[i] != 0
      ensures count == 0 ==> os.refusals > old(os.refusals)
      ensures count == 0 ==> old(shard.View()).free == [] && Exhausted(old(shard.View()), stride)
      ensures count == 0 ==> shard.View() == old(shard.View())
      ensures RunsGrown(old(os.mapped), os.mapped, old(shard.runs), shard.runs)
      ensures shard.freeList.next == old(shard.freeList.next)
    {
      count, answers := shard.AllocateBatch(stride, os, slots, BATCH_SIZE);
    }

    method PopSlot() returns (block: int)
      requires Valid() && count > 0
      modifies this`count
      ensures Valid() && count == old(count) - 1
      ensures var q := old(View()); View() == q[..|q| - 1] && block == q[|q| - 1]
    {
      count := count - 1;
      block := slots[count];
      assert slots[..count] == slots[..count + 1][..count];
    }

    method FreeBlock(block: int, shard: PoolShard, stride: nat)
      requires Valid() && shard.Valid(stride) && NoDup(View())
      requires forall b :: b in View() ==> b != 0 && b !in shard.freeList.contents
      modifies this, slots, shard.freeList
      ensures Valid() && shard.Valid(stride)
      ensures (shard.View(), View()) == CacheFree(old(shard.View()), old(View()), block)
      ensures OnlyLinks(old(shard.freeList.next), shard.freeList.next, old(View()))
    {
      ghost var q := slots[..count];
      if count == CACHE_CAPACITY {
        var keep := CACHE_CAPACITY - BATCH_SIZE;
        assert slots[keep..CACHE_CAPACITY] == q[keep..];
        SplitCache(q, keep);
        shard.FreeBatch(stride, slots, keep, CACHE_CAPACITY);
        count := keep;
        assert slots[..count] == q[..keep];
      }
      ghost var p := slots[..count];
      slots[count] := block;
      count := count + 1;
      assert slots[..count] == p + [block];
    }

    /** What the destructor does for one class. */
    method Drain(shard: PoolShard, stride: nat)
      requires Valid() && shard.Valid(stride) && NoDup(View())
      requires forall b :: b in View() ==> b != 0 && b !in shard.freeList.contents
      modifies this`count, shard.freeList
      ensures Valid() && shard.Valid(stride)
      ensures View() == [] && shard.View() == Returned(old(shard.View()), old(View()))
      ensures OnlyLinks(old(shard.freeList.next), shard.freeList.next, old(View()))
    {
      if count > 0 {
        assert slots[0..count] == slots[..count];
        shard.FreeBatch(stride, slots, 0, count);
        count := 0;
      }
    }
  }

  // ----------------------------------------------------- the methods as runs of the system

  /** The steps allocateBlock takes: a refill if the cache is empty, and a pop if it then
      holds a block. */
  ghost function AllocateRun(s: Shard, q: seq<int>, stride: nat, t: Tid, answers: seq<int>): seq<Step>
    requires stride > 0
  {
    (if q == [] then [Refill(t, answers)] else []) +
    (if CacheAllocate(s, q, stride, answers).2 != 0 then [Pop(t)] else [])
  }

  lemma RunOne(s: System, stride: nat, a: Step)
    requires stride > 0 && Enabled(s, stride, a)
    ensures Legal(s, stride, [a]) && Exec(s, stride, [a]) == Apply(s, stride, a)
  {
    assert [a][1..] == [];
  }

  lemma RunTwo(s: System, stride: nat, a: Step, b: Step)
    requires stride > 0 && Enabled(s, stride, a) && Enabled(Apply(s, stride, a), stride, b)
    ensures Legal(s, stride, [a] + [b]) && Exec(s, stride, [a] + [b]) == Apply(Apply(s, stride, a), stride, b)
  {
    assert ([a] + [b])[1..] == [b];
    RunOne(Apply(s, stride, a), stride, b);
  }

  /** A call of freeBlock is a flush, if the cache is full, and a push. */
  lemma FreeIsRun(s: System, stride: nat, t: Tid, b: int)
    requires stride > 0 && t in s.caches && b in s.live && |s.caches[t]| <= CACHE_CAPACITY
    ensures var run := if |s.caches[t]| == CACHE_CAPACITY then [Flush(t)] + [Push(t, b)] else [Push(t, b)];
            var (shard, q) := CacheFree(s.shard, s.caches[t], b);
            && Legal(s, stride, run)
            && Exec(s, stride, run) == System(shard, s.caches[t := q], s.live - {b})
  {
    if |s.caches[t]| == CACHE_CAPACITY {
      RunTwo(s, stride, Flush(t), Push(t, b));
      var keep := CACHE_CAPACITY - BATCH_SIZE;
      var q := s.caches[t][..keep];
      assert s.caches[t := q][t := q + [b]] == s.caches[t := q + [b]];
    } else {
      RunOne(s, stride, Push(t, b));
    }
  }

  /** A call of allocateBlock is a refill, if the cache is empty, and a pop. */
  lemma AllocateIsRun(s: System, loc: map<int, Place>, stride: nat, t: Tid, answers: seq<int>)
    requires Placed(s, loc, stride) && t in s.caches
    requires s.caches[t] == [] ==> AnswersOK(s.shard, stride, BATCH_SIZE, answers)
    ensures var run := AllocateRun(s.shard, s.caches[t], stride, t, answers);
            var (shard, q, b) := CacheAllocate(s.shard, s.caches[t], stride, answers);
            && Legal(s, stride, run)
            && Exec(s, stride, run) == System(shard, s.caches[t := q], if b == 0 then s.live else s.live + {b})
  {
    var q0 := s.caches[t];
    if q0 != [] {
      LastPositive(s, loc, stride, t);
      RunOne(s, stride, Pop(t));
      assert [] + [Pop(t)] == [Pop(t)];
    } else {
      RefillIsRun(s, loc, stride, t, answers);
    }
  }

  lemma RefillIsRun(s: System, loc: map<int, Place>, stride: nat, t: Tid, answers: seq<int>)
    requires Placed(s, loc, stride) && t in s.caches && s.caches[t] == []
    requires AnswersOK(s.shard, stride, BATCH_SIZE, answers)
    ensures var (shard, q) := TakeBatch(s.shard, stride, BATCH_SIZE, answers);
            && (q == [] ==>
                  && Legal(s, stride, [Refill(t, answers)] + [])
                  && Exec(s, stride, [Refill(t, answers)] + []) == System(shard, s.caches[t := q], s.live))
            && (q != [] ==>
                  && q[|q| - 1] > 0
                  && Legal(s, stride, [Refill(t, answers)] + [Pop(t)])
                  && Exec(s, stride, [Refill(t, answers)] + [Pop(t)]) ==
                     System(shard, s.caches[t := q[..|q| - 1]], s.live + {q[|q| - 1]}))
  {
    var loc1 := RefillKeeps(s, loc, stride, t, answers);
    var s1 := Apply(s, stride, Refill(t, answers));
    var q := s1.caches[t];
    if q == [] {
      RunOne(s, stride, Refill(t, answers));
      assert [Refill(t, answers)] + [] == [Refill(t, answers)];
    } else {
      LastPositive(s1, loc1, stride, t);
      RunTwo(s, stride, Refill(t, answers), Pop(t));
      CacheTwice(s.caches, t, q, q[..|q| - 1]);
    }
  }

  lemma LastPositive(s: System, loc: map<int, Place>, stride: nat, t: Tid)
    requires Placed(s, loc, stride) && t in s.caches && s.caches[t] != []
    ensures s.caches[t][|s.caches[t]| - 1] > 0
  {
    var q := s.caches[t];
    assert CachePlaced(q, loc, t) && q[|q| - 1] in q;
    PlacedPositive(s, loc, stride, q[|q| - 1]);
  }

  lemma CacheTwice(caches: map<Tid, seq<int>>, t: Tid, p: seq<int>, q: seq<int>)
    ensures caches[t := p][t := q] == caches[t := q]
  {}

  lemma PlacedPositive(s: System, loc: map<int, Place>, stride: nat, b: int)
    requires Placed(s, loc, stride) && b in loc
    ensures b > 0
  {
    assert b in Addrs(s.shard);
    var c :| c in s.shard.carved && c.addr == b;
    CarvedInRun(s.shard, stride, c);
  }
}
