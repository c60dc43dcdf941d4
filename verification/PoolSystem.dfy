/** One size class under any interleaving of its threads: shard operations are atomic
    under the shard's lock, and each cache belongs to one thread. */
module PoolSystem {
  import opened Shards
  import opened Sums

  const CACHE_CAPACITY: nat := 64
  const BATCH_SIZE: nat := 16

  type Tid = nat

  /** The shard, the slots in use of each thread's cache, and the blocks clients hold. */
  datatype System = System(shard: Shard, caches: map<Tid, seq<int>>, live: set<int>)

  const START := System(EMPTY, map[], {})

  // ----------------------------------------------------------------- batch operations

  function Needed(s: Shard, stride: nat, answers: seq<int>): int
    requires stride > 0
  {
    if s.free == [] && Exhausted(s, stride) && answers != [] then answers[0] else 0
  }

  function Unused(s: Shard, stride: nat, answers: seq<int>): seq<int>
    requires stride > 0
  {
    if s.free == [] && Exhausted(s, stride) && answers != [] then answers[1..] else answers
  }

  /** allocateBatch: up to n blocks, stopping at the first that cannot be had; answers
      are what the system says each time a run is asked for. */
  function TakeBatch(s: Shard, stride: nat, n: nat, answers: seq<int>): (Shard, seq<int>)
    requires stride > 0
    decreases n
  {
    if n == 0 then (s, [])
    else
      var (s1, b) := Take(s, stride, Needed(s, stride, answers));
      if b == 0 then (s1, [])
      else
        var (s2, bs) := TakeBatch(s1, stride, n - 1, Unused(s, stride, answers));
        (s2, [b] + bs)
  }

  /** The runs the system maps during the batch are fresh. */
  ghost predicate AnswersOK(s: Shard, stride: nat, n: nat, answers: seq<int>)
    requires stride > 0
    decreases n
  {
    n == 0 ||
    (var answer := Needed(s, stride, answers);
     && (answer != 0 ==> FreshRun(s.runs, answer))
     && AnswersOK(Take(s, stride, answer).0, stride, n - 1, Unused(s, stride, answers)))
  }

  /** freeBatch: the blocks are pushed one after the other. */
  function PushAll(free: seq<int>, bs: seq<int>): seq<int>
    decreases |bs|
  {
    if bs == [] then free else PushAll([bs[0]] + free, bs[1..])
  }

  // ---------------------------------------------------------------------------- steps

  datatype Step =
    | Arrive(t: Tid)
    | Refill(t: Tid, answers: seq<int>)
    | Pop(t: Tid)
    | Push(t: Tid, b: int)
    | Flush(t: Tid)
    | Exit(t: Tid)
    | PoolTake(answer: int)
    | PoolFree(b: int)

  ghost predicate Enabled(s: System, stride: nat, step: Step)
    requires stride > 0
  {
    match step
    case Arrive(t) => t !in s.caches
    case Refill(t, answers) =>
      t in s.caches && s.caches[t] == [] && AnswersOK(s.shard, stride, BATCH_SIZE, answers)
    case Pop(t) => t in s.caches && s.caches[t] != []
    case Push(t, b) => t in s.caches && b in s.live && |s.caches[t]| < CACHE_CAPACITY
    case Flush(t) => t in s.caches && |s.caches[t]| == CACHE_CAPACITY
    case Exit(t) => t in s.caches
    case PoolTake(answer) => answer != 0 ==> FreshRun(s.shard.runs, answer)
    case PoolFree(b) => b in s.live
  }

  function Returned(s: Shard, bs: seq<int>): Shard {
    s.(free := PushAll(s.free, bs))
  }

  ghost function Apply(s: System, stride: nat, step: Step): System
    requires stride > 0 && Enabled(s, stride, step)
  {
    match step
    case Arrive(t) => s.(caches := s.caches[t := []])
    case Refill(t, answers) =>
      var (shard, bs) := TakeBatch(s.shard, stride, BATCH_SIZE, answers);
      s.(shard := shard, caches := s.caches[t := bs])
    case Pop(t) =>
      var q := s.caches[t];
      s.(caches := s.caches[t := q[..|q| - 1]], live := s.live + {q[|q| - 1]})
    case Push(t, b) => s.(caches := s.caches[t := s.caches[t] + [b]], live := s.live - {b})
    case Flush(t) =>
      var keep := CACHE_CAPACITY - BATCH_SIZE;
      s.(shard := Returned(s.shard, s.caches[t][keep..]), caches := s.caches[t := s.caches[t][..keep]])
    case Exit(t) => s.(shard := Returned(s.shard, s.caches[t]), caches := s.caches - {t})
    case PoolTake(answer) =>
      var (shard, b) := Take(s.shard, stride, answer);
      if b == 0 then s.(shard := shard) else s.(shard := shard, live := s.live + {b})
    case PoolFree(b) => s.(shard := Returned(s.shard, [b]), live := s.live - {b})
  }

  // ------------------------------------------------------------------------ invariant

  datatype Place = InShard | InCache(t: Tid) | WithClient

  ghost function Addrs(s: Shard): set<int> {
    set c | c in s.carved :: c.addr
  }

  /** loc gives every carved block one place, and the free list holds those of the shard. */
  ghost predicate ShardPlaced(s: Shard, loc: map<int, Place>, stride: nat) {
    && ShardOK(s, stride) && loc.Keys == Addrs(s)
    && NoDup(s.free)
    && forall b :: b in s.free <==> b in loc && loc[b] == InShard
  }

  ghost predicate CachePlaced(q: seq<int>, loc: map<int, Place>, t: Tid) {
    && NoDup(q) && |q| <= CACHE_CAPACITY
    && forall b :: b in q <==> b in loc && loc[b] == InCache(t)
  }

  ghost predicate Placed(s: System, loc: map<int, Place>, stride: nat) {
    && ShardPlaced(s.shard, loc, stride)
    && (forall t :: t in s.caches ==> CachePlaced(s.caches[t], loc, t))
    && (forall b :: b in loc && loc[b].InCache? ==> loc[b].t in s.caches)
    && (forall b :: b in s.live <==> b in loc && loc[b] == WithClient)
  }

  function Moved(loc: map<int, Place>, bs: seq<int>, p: Place): map<int, Place> {
    loc + map b | b in bs :: p
  }

  // ------------------------------------------------------------- moves of the shard

  lemma FreshCell(s: Shard, s': Shard, stride: nat)
    requires ShardOK(s', stride) && |s'.carved| == |s.carved| + 1 && s'.carved[..|s.carved|] == s.carved
    ensures Addrs(s') == Addrs(s) + {s'.carved[|s.carved|].addr}
    ensures s'.carved[|s.carved|].addr !in Addrs(s) && s'.carved[|s.carved|].addr > 0
  {
    var n := |s.carved|;
    var c := s'.carved[n];
    CarvedInRun(s', stride, c);
    forall d | d in s.carved
      ensures d.addr != c.addr
    {
      var i :| 0 <= i < n && s.carved[i] == d;
      assert s'.carved[i] == d;
      CarvedApart(s', stride, i, n);
    }
    forall d | d in s'.carved
      ensures d in s.carved || d == c
    {
      var i :| 0 <= i < |s'.carved| && s'.carved[i] == d;
      if i < n { assert s.carved[i] == d; }
    }
    forall d | d in s.carved
      ensures d in s'.carved
    {
      var i :| 0 <= i < n && s.carved[i] == d;
      assert s'.carved[i] == d;
    }
  }

  /** takeBlock moves one block out of the shard: a listed one, or one just carved. It
      carves only when the list is empty. */
  lemma TakeMoves(s: Shard, loc: map<int, Place>, stride: nat, answer: int, p: Place)
    requires ShardPlaced(s, loc, stride) && p != InShard
    requires answer != 0 ==> FreshRun(s.runs, answer)
    ensures var (s', b) := Take(s, stride, answer);
            && (b == 0 ==> s' == s && s.free == [])
            && (b != 0 ==> ShardPlaced(s', loc[b := p], stride) && (b in loc ==> loc[b] == InShard))
            && CarvedLast(s, s')
  {
    if s.free != [] {
      PopMoves(s, loc, stride, p);
    } else {
      var (s', b) := Take(s, stride, answer);
      TakeKeepsShard(s, stride, answer);
      if s' != s { CarveMoves(s, s', loc, stride, p); }
    }
  }

  lemma PopMoves(s: Shard, loc: map<int, Place>, stride: nat, p: Place)
    requires ShardPlaced(s, loc, stride) && s.free != [] && p != InShard
    ensures var b := s.free[0];
            b > 0 && b in loc && loc[b] == InShard && ShardPlaced(s.(free := s.free[1..]), loc[b := p], stride)
  {
    var b, rest := s.free[0], s.free[1..];
    assert b in s.free;
    assert b in Addrs(s);
    var c :| c in s.carved && c.addr == b;
    CarvedInRun(s, stride, c);
    FreeListApart(s, rest, stride);
    assert loc[b := p].Keys == loc.Keys;
    forall x
      ensures x in rest <==> x in loc[b := p] && loc[b := p][x] == InShard
    {
      assert x in s.free <==> x == b || x in rest;
    }
  }

  lemma CarveMoves(s: Shard, s': Shard, loc: map<int, Place>, stride: nat, p: Place)
    requires ShardPlaced(s, loc, stride) && p != InShard && s.free == [] && s'.free == []
    requires ShardOK(s', stride) && |s'.carved| == |s.carved| + 1 && s'.carved[..|s.carved|] == s.carved
    ensures var b := s'.carved[|s.carved|].addr;
            b > 0 && b !in loc && ShardPlaced(s', loc[b := p], stride)
  {
    FreshCell(s, s', stride);
    var b := s'.carved[|s.carved|].addr;
    assert loc[b := p].Keys == loc.Keys + {b};
    forall x | x in loc[b := p] && loc[b := p][x] == InShard
      ensures x in s.free
    {
      assert x in loc;
    }
  }

  /** A batch moved the distinct blocks bs out of the shard into one place; it carved
      only if the list ran out. */
  ghost predicate BatchOK(s: Shard, loc: map<int, Place>, stride: nat, n: nat, p: Place, s': Shard, bs: seq<int>) {
    && ShardPlaced(s', Moved(loc, bs, p), stride)
    && NoDup(bs) && |bs| <= n
    && (forall b :: b in bs && b in loc ==> loc[b] == InShard)
    && CarvedLast(s, s')
  }

  ghost predicate CarvedLast(s: Shard, s': Shard) {
    |s'.carved| >= |s.carved| && (|s'.carved| != |s.carved| ==> s'.free == [])
  }

  lemma {:induction false} BatchMoves(s: Shard, loc: map<int, Place>, stride: nat, n: nat, answers: seq<int>, p: Place)
    requires ShardPlaced(s, loc, stride) && p != InShard && AnswersOK(s, stride, n, answers)
    ensures var (s', bs) := TakeBatch(s, stride, n, answers);
            BatchOK(s, loc, stride, n, p, s', bs)
    decreases n
  {
    if n == 0 {
      NothingMoved(s, loc, stride, n, p);
    } else {
      var answer := Needed(s, stride, answers);
      TakeMoves(s, loc, stride, answer, p);
      var (s1, b) := Take(s, stride, answer);
      if b == 0 {
        NothingMoved(s, loc, stride, n, p);
      } else {
        var rest := Unused(s, stride, answers);
        BatchRest(s, s1, b, loc, stride, n, rest, p);
      }
    }
  }

  lemma BatchRest(s: Shard, s1: Shard, b: int, loc: map<int, Place>, stride: nat, n: nat, rest: seq<int>, p: Place)
    requires n > 0 && ShardPlaced(s1, loc[b := p], stride) && p != InShard && AnswersOK(s1, stride, n - 1, rest)
    requires CarvedLast(s, s1) && (b in loc ==> loc[b] == InShard)
    ensures var (s2, bs) := TakeBatch(s1, stride, n - 1, rest);
            BatchOK(s, loc, stride, n, p, s2, [b] + bs)
    decreases n, 0
  {
    BatchMoves(s1, loc[b := p], stride, n - 1, rest, p);
    var (s2, bs) := TakeBatch(s1, stride, n - 1, rest);
    if s1.free == [] { TakeFromEmpty(s1, stride, n - 1, rest); }
    BatchCons(s, s1, b, loc, stride, n, p, s2, bs);
  }

  lemma NothingMoved(s: Shard, loc: map<int, Place>, stride: nat, n: nat, p: Place)
    requires ShardPlaced(s, loc, stride)
    ensures BatchOK(s, loc, stride, n, p, s, [])
  {
    assert Moved(loc, [], p) == loc;
  }

  lemma BatchCons(s: Shard, s1: Shard, b: int, loc: map<int, Place>, stride: nat, n: nat, p: Place, s2: Shard, bs: seq<int>)
    requires p != InShard && n > 0 && (b in loc ==> loc[b] == InShard)
    requires BatchOK(s1, loc[b := p], stride, n - 1, p, s2, bs)
    requires CarvedLast(s, s1) && (s1.free == [] ==> s2.free == [])
    ensures BatchOK(s, loc, stride, n, p, s2, [b] + bs)
  {
    BatchJoin(loc, b, bs, p);
  }

  lemma BatchJoin(loc: map<int, Place>, b: int, bs: seq<int>, p: Place)
    requires p != InShard && NoDup(bs)
    requires forall x :: x in bs && x in loc[b := p] ==> loc[b := p][x] == InShard
    ensures Moved(loc[b := p], bs, p) == Moved(loc, [b] + bs, p)
    ensures NoDup([b] + bs)
    ensures forall x :: x in bs && x in loc ==> loc[x] == InShard
  {
    assert b !in bs;
    MovedJoin(loc, b, bs, p);
  }

  lemma MovedJoin(loc: map<int, Place>, b: int, bs: seq<int>, p: Place)
    ensures Moved(loc[b := p], bs, p) == Moved(loc, [b] + bs, p)
  {
    var l, r := Moved(loc[b := p], bs, p), Moved(loc, [b] + bs, p);
    forall x
      ensures x in l <==> x in r
      ensures x in l ==> l[x] == r[x]
    {
      assert x in [b] + bs <==> x == b || x in bs;
    }
  }

  /** Once the list is empty it stays empty for the rest of the batch. */
  lemma TakeFromEmpty(s: Shard, stride: nat, n: nat, answers: seq<int>)
    requires stride > 0 && s.free == []
    ensures TakeBatch(s, stride, n, answers).0.free == []
    decreases n
  {
    if n > 0 {
      TakeFromEmpty(Take(s, stride, Needed(s, stride, answers)).0, stride, n - 1, Unused(s, stride, answers));
    }
  }

  /** What was pushed comes back in the opposite order, before what was there. */
  lemma {:induction false} PushAllReverses(free: seq<int>, bs: seq<int>)
    ensures |PushAll(free, bs)| == |bs| + |free|
    ensures forall i :: 0 <= i < |bs| ==> PushAll(free, bs)[i] == bs[|bs| - 1 - i]
    ensures PushAll(free, bs)[|bs|..] == free
    decreases |bs|
  {
    if bs != [] {
      var all := PushAll(free, bs);
      PushAllReverses([bs[0]] + free, bs[1..]);
      assert all[|bs| - 1..] == [bs[0]] + free;
      assert all[|bs|..] == all[|bs| - 1..][1..];
    }
  }

  lemma PushAllMembers(free: seq<int>, bs: seq<int>)
    requires NoDup(free) && NoDup(bs) && forall b :: b in bs ==> b !in free
    ensures NoDup(PushAll(free, bs))
    ensures forall b :: b in PushAll(free, bs) <==> b in free || b in bs
    decreases |bs|
  {
    if bs != [] {
      var free', rest := [bs[0]] + free, bs[1..];
      assert bs == [bs[0]] + rest && bs[0] in bs;
      assert forall b :: b in free' <==> b == bs[0] || b in free;
      PushAllMembers(free', rest);
    }
  }

  /** freeBatch moves its blocks back into the shard. */
  lemma ReturnMoves(s: Shard, loc: map<int, Place>, stride: nat, bs: seq<int>)
    requires ShardPlaced(s, loc, stride) && NoDup(bs)
    requires forall b :: b in bs ==> b in loc && loc[b] != InShard
    ensures ShardPlaced(Returned(s, bs), Moved(loc, bs, InShard), stride)
  {
    var loc' := Moved(loc, bs, InShard);
    PushAllMembers(s.free, bs);
    FreeListApart(s, PushAll(s.free, bs), stride);
    assert loc'.Keys == loc.Keys;
  }

  // ---------------------------------------------------------------- moves of the system

  lemma ArriveKeeps(s: System, loc: map<int, Place>, stride: nat, t: Tid)
    requires Placed(s, loc, stride) && t !in s.caches
    ensures Placed(s.(caches := s.caches[t := []]), loc, stride)
  {}

  lemma RefillKeeps(s: System, loc: map<int, Place>, stride: nat, t: Tid, answers: seq<int>) returns (loc': map<int, Place>)
    requires Placed(s, loc, stride) && Enabled(s, stride, Refill(t, answers))
    ensures Placed(Apply(s, stride, Refill(t, answers)), loc', stride)
    ensures CarvedLast(s.shard, Apply(s, stride, Refill(t, answers)).shard)
  {
    BatchMoves(s.shard, loc, stride, BATCH_SIZE, answers, InCache(t));
    var (shard, bs) := TakeBatch(s.shard, stride, BATCH_SIZE, answers);
    loc' := Moved(loc, bs, InCache(t));
    CachesAfterTake(s, loc, stride, t, bs);
  }

  /** Blocks out of the shard put into the empty cache of t. */
  lemma CachesAfterTake(s: System, loc: map<int, Place>, stride: nat, t: Tid, bs: seq<int>)
    requires Placed(s, loc, stride) && t in s.caches && s.caches[t] == []
    requires NoDup(bs) && |bs| <= CACHE_CAPACITY && forall b :: b in bs && b in loc ==> loc[b] == InShard
    ensures var loc', caches := Moved(loc, bs, InCache(t)), s.caches[t := bs];
            && (forall u :: u in caches ==> CachePlaced(caches[u], loc', u))
            && (forall b :: b in loc' && loc'[b].InCache? ==> loc'[b].t in caches)
            && (forall b :: b in s.live <==> b in loc' && loc'[b] == WithClient)
  {
    var loc', caches := Moved(loc, bs, InCache(t)), s.caches[t := bs];
    forall u | u in caches
      ensures CachePlaced(caches[u], loc', u)
    {
      assert CachePlaced(s.caches[u], loc, u);
    }
  }

  lemma PopKeeps(s: System, loc: map<int, Place>, stride: nat, t: Tid) returns (loc': map<int, Place>)
    requires Placed(s, loc, stride) && Enabled(s, stride, Pop(t))
    ensures Placed(Apply(s, stride, Pop(t)), loc', stride)
  {
    var q := s.caches[t];
    var b := q[|q| - 1];
    assert CachePlaced(q, loc, t) && b in q;
    loc' := loc[b := WithClient];
    assert q == q[..|q| - 1] + [b];
    MoveKeepsShard(s.shard, loc, stride, b, WithClient);
    forall u | u in s.caches
      ensures CachePlaced(if u == t then q[..|q| - 1] else s.caches[u], loc', u)
    {
      assert CachePlaced(s.caches[u], loc, u);
    }
  }

  lemma PushKeeps(s: System, loc: map<int, Place>, stride: nat, t: Tid, b: int) returns (loc': map<int, Place>)
    requires Placed(s, loc, stride) && Enabled(s, stride, Push(t, b))
    ensures Placed(Apply(s, stride, Push(t, b)), loc', stride)
  {
    var q := s.caches[t];
    assert b in loc && loc[b] == WithClient;
    assert CachePlaced(q, loc, t);
    loc' := loc[b := InCache(t)];
    MoveKeepsShard(s.shard, loc, stride, b, InCache(t));
    forall u | u in s.caches
      ensures CachePlaced(if u == t then q + [b] else s.caches[u], loc', u) == true
    {
      OneMoreCached(s.caches[u], loc, t, b, u);
    }
  }

  lemma OneMoreCached(q: seq<int>, loc: map<int, Place>, t: Tid, b: int, u: Tid)
    requires CachePlaced(q, loc, u) == true && b in loc && loc[b] == WithClient && (u == t ==> |q| < CACHE_CAPACITY)
    ensures CachePlaced(if u == t then q + [b] else q, loc[b := InCache(t)], u)
  {}

  /** Moving a block that is outside the shard does not concern the shard. */
  lemma MoveKeepsShard(s: Shard, loc: map<int, Place>, stride: nat, b: int, p: Place)
    requires ShardPlaced(s, loc, stride) && b in loc && loc[b] != InShard && p != InShard
    ensures ShardPlaced(s, loc[b := p], stride)
  {
    assert loc[b := p].Keys == loc.Keys;
  }

  /** The last blocks of a cache, from slot keep on, go back to the shard. */
  lemma FlushKeeps(s: System, loc: map<int, Place>, stride: nat, t: Tid, keep: nat) returns (loc': map<int, Place>)
    requires Placed(s, loc, stride) && t in s.caches && keep <= |s.caches[t]|
    ensures var q := s.caches[t];
            Placed(s.(shard := Returned(s.shard, q[keep..]), caches := s.caches[t := q[..keep]]), loc', stride)
    ensures forall b :: b in s.caches[t][..keep] <==> b in loc' && loc'[b] == InCache(t)
  {
    var q := s.caches[t];
    loc' := Moved(loc, q[keep..], InShard);
    FlushMoves(s.shard, q, loc, stride, t, keep);
    CachesAfterReturn(s, loc, stride, t, keep);
    assert CachePlaced(s.caches[t := q[..keep]][t], loc', t);
  }

  lemma FlushMoves(s: Shard, q: seq<int>, loc: map<int, Place>, stride: nat, t: Tid, keep: nat)
    requires ShardPlaced(s, loc, stride) && CachePlaced(q, loc, t) && keep <= |q|
    ensures ShardPlaced(Returned(s, q[keep..]), Moved(loc, q[keep..], InShard), stride)
  {
    SplitCache(q, keep);
    ReturnMoves(s, loc, stride, q[keep..]);
  }

  lemma SplitCache(q: seq<int>, keep: nat)
    requires NoDup(q) && keep <= |q|
    ensures NoDup(q[..keep]) && NoDup(q[keep..])
    ensures forall b :: b in q <==> b in q[..keep] || b in q[keep..]
    ensures forall b :: b in q[..keep] ==> b !in q[keep..]
  {
    assert q == q[..keep] + q[keep..];
  }

  lemma CachesAfterReturn(s: System, loc: map<int, Place>, stride: nat, t: Tid, keep: nat)
    requires Placed(s, loc, stride) && t in s.caches && keep <= |s.caches[t]|
    ensures var q := s.caches[t];
            var loc', caches := Moved(loc, q[keep..], InShard), s.caches[t := q[..keep]];
            && (forall u :: u in caches ==> CachePlaced(caches[u], loc', u))
            && (forall b :: b in loc' && loc'[b].InCache? ==> loc'[b].t in caches)
            && (forall b :: b in s.live <==> b in loc' && loc'[b] == WithClient)
  {
    var q := s.caches[t];
    assert CachePlaced(q, loc, t);
    SplitCache(q, keep);
    forall u | u in s.caches
      ensures CachePlaced(if u == t then q[..keep] else s.caches[u], Moved(loc, q[keep..], InShard), u)
    {
      assert CachePlaced(s.caches[u], loc, u);
    }
  }

  lemma ExitKeeps(s: System, loc: map<int, Place>, stride: nat, t: Tid) returns (loc': map<int, Place>)
    requires Placed(s, loc, stride) && t in s.caches
    ensures Placed(Apply(s, stride, Exit(t)), loc', stride)
  {
    loc' := FlushKeeps(s, loc, stride, t, 0);
    assert s.caches[t][0..] == s.caches[t];
    var s1 := s.(shard := Returned(s.shard, s.caches[t]), caches := s.caches[t := []]);
    assert Placed(s1, loc', stride);
    forall b | b in loc' && loc'[b].InCache?
      ensures loc'[b].t != t
    {
      assert b in s.caches[t][..0] <==> b in loc' && loc'[b] == InCache(t);
    }
    forall u | u in s.caches - {t}
      ensures CachePlaced(s.caches[u], loc', u)
    {
      assert CachePlaced(s1.caches[u], loc', u);
    }
  }

  lemma PoolTakeKeeps(s: System, loc: map<int, Place>, stride: nat, answer: int) returns (loc': map<int, Place>)
    requires Placed(s, loc, stride) && Enabled(s, stride, PoolTake(answer))
    ensures Placed(Apply(s, stride, PoolTake(answer)), loc', stride)
    ensures CarvedLast(s.shard, Apply(s, stride, PoolTake(answer)).shard)
  {
    TakeMoves(s.shard, loc, stride, answer, WithClient);
    var (shard, b) := Take(s.shard, stride, answer);
    if b == 0 {
      loc' := loc;
    } else {
      loc' := loc[b := WithClient];
      ClientGains(s, loc, stride, b);
    }
  }

  /** A client takes a block out of the shard past every cache. */
  lemma ClientGains(s: System, loc: map<int, Place>, stride: nat, b: int)
    requires Placed(s, loc, stride) && (b in loc ==> loc[b] == InShard)
    ensures var loc' := loc[b := WithClient];
            && (forall u :: u in s.caches ==> CachePlaced(s.caches[u], loc', u))
            && (forall x :: x in loc' && loc'[x].InCache? ==> loc'[x].t in s.caches)
            && (forall x :: x in s.live + {b} <==> x in loc' && loc'[x] == WithClient)
  {
    forall u | u in s.caches
      ensures CachePlaced(s.caches[u], loc[b := WithClient], u)
    {
      assert CachePlaced(s.caches[u], loc, u);
    }
  }

  lemma PoolFreeKeeps(s: System, loc: map<int, Place>, stride: nat, b: int) returns (loc': map<int, Place>)
    requires Placed(s, loc, stride) && Enabled(s, stride, PoolFree(b))
    ensures Placed(Apply(s, stride, PoolFree(b)), loc', stride)
  {
    assert b in loc && loc[b] == WithClient;
    loc' := Moved(loc, [b], InShard);
    ReturnMoves(s.shard, loc, stride, [b]);
    forall u | u in s.caches
      ensures CachePlaced(s.caches[u], loc', u)
    {
      assert CachePlaced(s.caches[u], loc, u);
    }
  }

  /** Every step keeps every carved block in exactly one place. */
  lemma StepKeepsPlaces(s: System, loc: map<int, Place>, stride: nat, step: Step) returns (loc': map<int, Place>)
    requires Placed(s, loc, stride) && Enabled(s, stride, step)
    ensures Placed(Apply(s, stride, step), loc', stride)
    ensures CarvedLast(s.shard, Apply(s, stride, step).shard)
  {
    match step {
      case Arrive(t) => ArriveKeeps(s, loc, stride, t); loc' := loc;
      case Refill(t, answers) => loc' := RefillKeeps(s, loc, stride, t, answers);
      case Pop(t) => loc' := PopKeeps(s, loc, stride, t);
      case Push(t, b) => loc' := PushKeeps(s, loc, stride, t, b);
      case Flush(t) => loc' := FlushKeeps(s, loc, stride, t, CACHE_CAPACITY - BATCH_SIZE);
      case Exit(t) => loc' := ExitKeeps(s, loc, stride, t);
      case PoolTake(answer) => loc' := PoolTakeKeeps(s, loc, stride, answer);
      case PoolFree(b) => loc' := PoolFreeKeeps(s, loc, stride, b);
    }
  }

  // ----------------------------------------------------------------------------- runs

  ghost predicate Legal(s: System, stride: nat, run: seq<Step>)
    requires stride > 0
    decreases |run|
  {
    run == [] || (Enabled(s, stride, run[0]) && Legal(Apply(s, stride, run[0]), stride, run[1..]))
  }

  ghost function Exec(s: System, stride: nat, run: seq<Step>): System
    requires stride > 0 && Legal(s, stride, run)
    decreases |run|
  {
    if run == [] then s else Exec(Apply(s, stride, run[0]), stride, run[1..])
  }

  lemma StartPlaced(stride: nat)
    requires StrideOK(stride)
    ensures Placed(START, map[], stride)
  {}

  lemma {:induction false} RunKeepsPlaces(s: System, loc: map<int, Place>, stride: nat, run: seq<Step>)
    returns (loc': map<int, Place>)
    requires Placed(s, loc, stride) && Legal(s, stride, run)
    ensures Placed(Exec(s, stride, run), loc', stride)
    decreases |run|
  {
    if run == [] {
      loc' := loc;
    } else {
      var loc1 := StepKeepsPlaces(s, loc, stride, run[0]);
      loc' := RunKeepsPlaces(Apply(s, stride, run[0]), loc1, stride, run[1..]);
    }
  }

  predicate Cached(s: System, b: int) {
    exists t :: t in s.caches && b in s.caches[t]
  }

  /** After any interleaving, the carved blocks are exactly those in the free list, in
      a cache or with a client; no block is in two of them, in two caches, or twice in
      one; and no cache holds more than its capacity. */
  lemma EveryBlockOnce(stride: nat, run: seq<Step>)
    requires StrideOK(stride) && Legal(START, stride, run)
    ensures var s := Exec(START, stride, run);
            && (forall b :: b in Addrs(s.shard) <==> b in s.shard.free || b in s.live || Cached(s, b))
            && (forall b :: b in s.shard.free ==> b !in s.live && !Cached(s, b))
            && (forall b :: b in s.live ==> !Cached(s, b))
            && (forall t, u, b :: t in s.caches && u in s.caches && b in s.caches[t] && b in s.caches[u] ==> t == u)
            && NoDup(s.shard.free)
            && (forall t :: t in s.caches ==> NoDup(s.caches[t]) && |s.caches[t]| <= 64)
  {
    StartPlaced(stride);
    var loc := RunKeepsPlaces(START, map[], stride, run);
    PlacesExclusive(Exec(START, stride, run), loc, stride);
  }

  lemma PlacesExclusive(s: System, loc: map<int, Place>, stride: nat)
    requires Placed(s, loc, stride)
    ensures forall b :: b in Addrs(s.shard) <==> b in s.shard.free || b in s.live || Cached(s, b)
    ensures forall b :: b in s.shard.free ==> b !in s.live && !Cached(s, b)
    ensures forall b :: b in s.live ==> !Cached(s, b)
    ensures forall t, u, b :: t in s.caches && u in s.caches && b in s.caches[t] && b in s.caches[u] ==> t == u
    ensures forall t :: t in s.caches ==> NoDup(s.caches[t]) && |s.caches[t]| <= 64
  {
    forall t | t in s.caches
      ensures CachePlaced(s.caches[t], loc, t)
    {}
    forall b
      ensures Cached(s, b) <==> b in loc && loc[b].InCache?
    {
      if b in loc && loc[b].InCache? { assert b in s.caches[loc[b].t]; }
    }
    assert forall b :: b in Addrs(s.shard) <==> b in loc;
  }

  // --------------------------------------------------------------- footprint over a run

  /** Blocks of the class that are not in its shard. */
  function Outside(s: System): int {
    |s.shard.carved| - |s.shard.free|
  }

  /** The largest value of f over the states of a run. */
  ghost function Peak(s: System, stride: nat, run: seq<Step>, f: System -> int): int
    requires stride > 0 && Legal(s, stride, run)
    decreases |run|
  {
    if run == [] then f(s) else Max(f(s), Peak(Apply(s, stride, run[0]), stride, run[1..], f))
  }

  lemma {:induction false} CarvedIsPeakOutside(s: System, loc: map<int, Place>, stride: nat, run: seq<Step>)
    requires Placed(s, loc, stride) && Legal(s, stride, run)
    ensures |Exec(s, stride, run).shard.carved| == Max(|s.shard.carved|, Peak(s, stride, run, Outside))
    decreases |run|
  {
    if run != [] {
      var loc1 := StepKeepsPlaces(s, loc, stride, run[0]);
      var s1 := Apply(s, stride, run[0]);
      assert CarvedLast(s.shard, s1.shard);
      CarvedIsPeakOutside(s1, loc1, stride, run[1..]);
      PeakStart(s1, stride, run[1..], Outside);
    }
  }

  lemma PeakStart(s: System, stride: nat, run: seq<Step>, f: System -> int)
    requires stride > 0 && Legal(s, stride, run)
    ensures Peak(s, stride, run, f) >= f(s)
  {}

  /** Blocks are carved only for want of free ones: as many were carved over the run as
      were ever outside the shard at once, and just enough runs were mapped for them. */
  lemma FootprintExact(stride: nat, run: seq<Step>)
    requires StrideOK(stride) && Legal(START, stride, run)
    ensures var s := Exec(START, stride, run);
            && |s.shard.carved| == Peak(START, stride, run, Outside)
            && |s.shard.runs| == (|s.shard.carved| + PerRun(stride) - 1) / PerRun(stride)
  {
    StartPlaced(stride);
    CarvedIsPeakOutside(START, map[], stride, run);
    PeakStart(START, stride, run, Outside);
    var loc := RunKeepsPlaces(START, map[], stride, run);
    RunsAreCeiling(Exec(START, stride, run).shard, stride);
  }

  lemma AddrCount(s: Shard, stride: nat)
    requires ShardOK(s, stride)
    ensures |Addrs(s)| == |s.carved|
  {
    var q := seq(|s.carved|, i requires 0 <= i < |s.carved| => s.carved[i].addr);
    forall i, j | 0 <= i < j < |q|
      ensures q[i] != q[j]
    {
      CarvedApart(s, stride, i, j);
    }
    DistinctSize(q);
    forall a | a in Addrs(s)
      ensures a in q
    {
      var c :| c in s.carved && c.addr == a;
      var i :| 0 <= i < |s.carved| && s.carved[i] == c;
      assert q[i] == a;
    }
    forall a | a in q
      ensures a in Addrs(s)
    {
      var i :| 0 <= i < |q| && q[i] == a;
      assert s.carved[i] in s.carved;
    }
    assert (set x | x in q) == Addrs(s);
  }

  /** The blocks in the caches of the threads ts. */
  ghost function CachedBy(loc: map<int, Place>, ts: set<Tid>): set<int> {
    set b | b in loc && loc[b].InCache? && loc[b].t in ts
  }

  lemma {:induction false} CachedCount(s: System, loc: map<int, Place>, ts: set<Tid>)
    requires forall t :: t in ts ==> t in s.caches && CachePlaced(s.caches[t], loc, t)
    ensures |CachedBy(loc, ts)| <= CACHE_CAPACITY * |ts|
    decreases ts
  {
    if ts == {} {
      assert CachedBy(loc, ts) == {};
    } else {
      var t := Pick(ts);
      CachedCount(s, loc, ts - {t});
      OneCache(s.caches[t], loc, ts, t);
      assert |ts| == |ts - {t}| + 1;
    }
  }

  lemma OneCache(q: seq<int>, loc: map<int, Place>, ts: set<Tid>, t: Tid)
    requires t in ts && CachePlaced(q, loc, t)
    ensures |CachedBy(loc, ts)| <= |CachedBy(loc, ts - {t})| + CACHE_CAPACITY
  {
    var slots := set x | x in q;
    DistinctSize(q);
    forall x
      ensures x in CachedBy(loc, ts) <==> x in CachedBy(loc, ts - {t}) + slots
    {
      assert x in q <==> x in loc && loc[x] == InCache(t);
    }
    SameSet(CachedBy(loc, ts), CachedBy(loc, ts - {t}) + slots);
  }

  function LiveCount(s: System): int { |s.live| }

  function CacheCount(s: System): int { |s.caches| }

  lemma ThreePlaces(s: System, loc: map<int, Place>, stride: nat)
    requires Placed(s, loc, stride)
    ensures Addrs(s.shard) == (set b | b in s.shard.free) + s.live + CachedBy(loc, s.caches.Keys)
  {
    var all := (set b | b in s.shard.free) + s.live + CachedBy(loc, s.caches.Keys);
    forall x
      ensures x in loc <==> x in all
    {
      assert x in s.shard.free <==> x in loc && loc[x] == InShard;
    }
    SameSet(loc.Keys, all);
  }

  /** What is outside the shard is with clients or in caches. */
  lemma OutsideBound(s: System, loc: map<int, Place>, stride: nat)
    requires Placed(s, loc, stride)
    ensures Outside(s) <= LiveCount(s) + 64 * CacheCount(s)
  {
    var inShard := set b | b in s.shard.free;
    var cached := CachedBy(loc, s.caches.Keys);
    AddrCount(s.shard, stride);
    DistinctSize(s.shard.free);
    CachedCount(s, loc, s.caches.Keys);
    ThreePlaces(s, loc, stride);
    assert |s.caches.Keys| == |s.caches|;
    assert |inShard + s.live + cached| <= |inShard| + |s.live| + |cached|;
  }

  lemma {:induction false} PeaksAdd(s: System, loc: map<int, Place>, stride: nat, run: seq<Step>)
    requires Placed(s, loc, stride) && Legal(s, stride, run)
    ensures Peak(s, stride, run, Outside) <=
            Peak(s, stride, run, LiveCount) + 64 * Peak(s, stride, run, CacheCount)
    decreases |run|
  {
    OutsideBound(s, loc, stride);
    if run != [] {
      var loc1 := StepKeepsPlaces(s, loc, stride, run[0]);
      PeaksAdd(Apply(s, stride, run[0]), loc1, stride, run[1..]);
    }
  }

  /** Caching costs at most 64 blocks per cache: the memory ever carved for a class is
      bounded by the peak of live blocks plus 64 for each cache alive at once. */
  lemma BlowUpBound(stride: nat, run: seq<Step>)
    requires StrideOK(stride) && Legal(START, stride, run)
    ensures |Exec(START, stride, run).shard.carved| <=
            Peak(START, stride, run, LiveCount) + 64 * Peak(START, stride, run, CacheCount)
  {
    StartPlaced(stride);
    FootprintExact(stride, run);
    PeaksAdd(START, map[], stride, run);
  }
}
