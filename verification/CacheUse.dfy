/** What the small tier's calls do to the caches of the threads and to the shards: which
    block a thread gets, and where a block goes that it gives back. */
module CacheUse {
  import opened Folding
  import opened SizeClasses
  import opened Shards
  import opened PoolSystem
  import opened Pools
  import opened Tiers

  /** What thread t has cached of a class. */
  function CacheOf(s: System, t: Tid): seq<int> {
    if t in s.caches then s.caches[t] else []
  }

  ghost predicate SameCached(s: System, s': System, but: set<Tid>) {
    forall u {:trigger CacheOf(s', u)} :: u !in but ==> CacheOf(s', u) == CacheOf(s, u)
  }

  /** Nothing has moved; at most a thread has a cache now, with nothing in it. */
  ghost predicate Idle(s: System, s': System) {
    s'.shard == s.shard && s'.live == s.live && SameCached(s, s', {})
  }

  /** Block b is the last of t's cache; from an empty cache, it is the last of a batch of
      16 taken from the shard, and the others stay in the cache. */
  ghost predicate Popped(s: System, s': System, stride: nat, t: Tid, b: int) {
    && SameCached(s, s', {t}) && s'.live == s.live + {b}
    && if CacheOf(s, t) != [] then s'.shard == s.shard && CacheOf(s, t) == CacheOf(s', t) + [b]
       else exists answers :: Batched(s.shard, stride, answers, s'.shard, CacheOf(s', t) + [b]) == true
  }

  /** A batch of 16 leads from s to s' and consists of q; runs that are mapped for it are
      fresh. It is kept folded. */
  ghost predicate Batched(s: Shard, stride: nat, answers: seq<int>, s': Shard, q: seq<int>) {
    forall key {:trigger Opened(q, key)} :: Opened(q, key) ==>
      stride > 0 && TakeBatch(s, stride, 16, answers) == (s', q) && AnswersOK(s, stride, 16, answers)
  }

  /** Block b is taken from the shard. */
  ghost predicate Carved(s: System, s': System, stride: nat, b: int) {
    && SameCached(s, s', {}) && s'.live == s.live + {b}
    && stride > 0 && exists answer ::
         Take(s.shard, stride, answer) == (s'.shard, b) && (answer != 0 ==> FreshRun(s.shard.runs, answer))
  }

  /** Block b is the last of t's cache; if 64 were there, the last 16 have gone back to the
      shard. */
  ghost predicate Pushed(s: System, s': System, t: Tid, b: int) {
    && SameCached(s, s', {t}) && s'.live == s.live - {b}
    && var q := CacheOf(s, t);
       if |q| < 64 then s'.shard == s.shard && CacheOf(s', t) == q + [b]
       else s'.shard == Returned(s.shard, q[48..]) && CacheOf(s', t) == q[..48] + [b]
  }

  /** Block b is the first of the shard's free list. */
  ghost predicate Reclaimed(s: System, s': System, b: int) {
    SameCached(s, s', {}) && s'.live == s.live - {b} && s'.shard == Returned(s.shard, [b])
  }

  /** All that t has cached has gone back to the shard, and t has no cache any more. */
  ghost predicate Flushed(s: System, s': System, t: Tid) {
    && t in s.caches && t !in s'.caches && SameCached(s, s', {t}) && s'.live == s.live
    && s'.shard == Returned(s.shard, s.caches[t])
  }

  ghost predicate IdleBut(small: seq<System>, small': seq<System>, c: int) {
    |small| == |small'| == CLASS_COUNT && forall d :: 0 <= d < CLASS_COUNT && d != c ==> Idle(small[d], small'[d])
  }

  /** A raw request of n bytes was served with block b, through a cache or not: from the
      least class that holds n, if n is at most 4096, and otherwise the small tier had no
      part in it. */
  ghost predicate Drawn(small: seq<System>, small': seq<System>, via: Via, n: nat, b: int) {
    if n <= 4096 then
      exists c: nat ::
        c < CLASS_COUNT && OfClass(n, c) == true && IdleBut(small, small', c) && GotFrom(small[c], small'[c], c, via, b) == true
    else IdleBut(small, small', -1)
  }

  /** Class c is that of n bytes. This and what class c did are kept folded, too. */
  ghost predicate OfClass(n: nat, c: nat) {
    forall key {:trigger Opened(c, key)} :: Opened(c, key) ==> n <= SMALL_MAX && c == ClassIndex(n)
  }

  ghost predicate GotFrom(s: System, s': System, c: nat, via: Via, b: int) {
    forall key {:trigger Opened(s', key)} :: Opened(s', key) ==>
      && c < CLASS_COUNT
      && match via
         case ViaCache(t) => Popped(s, s', Stride(c), t, b)
         case ViaPool => Carved(s, s', Stride(c), b)
  }

  /** A raw block of that owner was given back at b. */
  ghost predicate Undrawn(small: seq<System>, small': seq<System>, via: Via, owner: Owner, b: int) {
    match owner
    case Small(c) =>
      && c < CLASS_COUNT && IdleBut(small, small', c)
      && (match via
          case ViaCache(t) => Pushed(small[c], small'[c], t, b)
          case ViaPool => Reclaimed(small[c], small'[c], b))
    case _ => IdleBut(small, small', -1)
  }

  /** Both are kept folded where they are passed along. */
  ghost predicate Drew(small: seq<System>, small': seq<System>, via: Via, n: nat, b: int) {
    forall key {:trigger Opened(small', key)} :: Opened(small', key) ==> Drawn(small, small', via, n, b)
  }

  ghost predicate GaveBack(small: seq<System>, small': seq<System>, via: Via, owner: Owner, b: int) {
    forall key {:trigger Opened(small', key)} :: Opened(small', key) ==> Undrawn(small, small', via, owner, b)
  }

  ghost predicate AllIdle(small: seq<System>, small': seq<System>) {
    forall key {:trigger Opened(small', key)} :: Opened(small', key) ==> IdleBut(small, small', -1)
  }

  /** The classes below n are flushed, the others as before; folded as well. */
  ghost predicate FlushedBelow(small: seq<System>, small': seq<System>, t: Tid, n: nat) {
    forall key {:trigger Opened(small', key)} :: Opened(small', key) ==>
      && |small| == |small'| == CLASS_COUNT
      && (forall c :: 0 <= c < n && c < CLASS_COUNT ==> Flushed(small[c], small'[c], t))
      && (forall c :: n <= c < CLASS_COUNT ==> small'[c] == small[c])
  }

  // ---------------------------------------------------------------- from the tier's steps

  lemma ExitFlushes(s: System, stride: nat, t: Tid)
    requires stride > 0 && t in s.caches
    ensures Flushed(s, Apply(s, stride, Exit(t)), t) == true
  {}

  lemma NoneFlushed(small: seq<System>, t: Tid)
    requires |small| == CLASS_COUNT
    ensures FlushedBelow(small, small, t, 0) == true
  {}

  lemma NextFlushed(small: seq<System>, mid: seq<System>, small': seq<System>, t: Tid, n: nat)
    requires FlushedBelow(small, mid, t, n) == true && n < CLASS_COUNT == |mid| == |small'|
    requires Flushed(mid[n], small'[n], t) == true && forall d :: 0 <= d < |mid| && d != n ==> small'[d] == mid[d]
    ensures FlushedBelow(small, small', t, n + 1) == true
  {
    assert Opened(mid, 0);
    forall c | 0 <= c < n + 1
      ensures Flushed(small[c], small'[c], t)
    {
      if c < n { assert Flushed(small[c], mid[c], t); }
    }
  }

  lemma ServesPops(s: System, stride: nat, g: Grant, s': System, b: int)
    requires SmallServes(s, stride, g, s', b) == true && g.CacheGrant? && g.t in s.caches
    ensures Popped(s, s', stride, g.t, b)
  {
    assert Opened(s', 0);
    if s.caches[g.t] == [] {
      RefillPops(s.shard, stride, g.answers);
      assert Batched(s.shard, stride, g.answers, s'.shard, CacheOf(s', g.t) + [b]) == true;
    }
  }

  lemma RefillPops(s: Shard, stride: nat, answers: seq<int>)
    requires stride > 0 && CacheAllocate(s, [], stride, answers).2 != 0
    ensures var (shard, q, b) := CacheAllocate(s, [], stride, answers);
            TakeBatch(s, stride, 16, answers) == (shard, q + [b])
  {
    LastLast(TakeBatch(s, stride, 16, answers).1);
  }

  lemma LastLast(q: seq<int>)
    ensures q != [] ==> q[..|q| - 1] + [q[|q| - 1]] == q
  {}

  lemma ServesCarves(s: System, stride: nat, answer: int, s': System, b: int)
    requires SmallServes(s, stride, PoolGrant(answer), s', b) == true
    ensures Carved(s, s', stride, b)
  {
    assert Opened(s', 0);
    assert Take(s.shard, stride, answer) == (s'.shard, b);
  }

  lemma FreePushes(s: System, t: Tid, b: int)
    requires t in s.caches && |s.caches[t]| <= 64
    ensures Pushed(s, SmallFree(s, b, ViaCache(t)), t, b)
  {}

  lemma FreeReclaims(s: System, b: int)
    ensures Reclaimed(s, SmallFree(s, b, ViaPool), b)
  {}

  lemma IdleElsewhere(small: seq<System>, c: int, s': System)
    requires |small| == CLASS_COUNT && 0 <= c < CLASS_COUNT
    ensures IdleBut(small, small[c := s'], c)
  {}

  lemma DrewCache(small: seq<System>, n: nat, g: Grant, s': System, b: int)
    requires |small| == CLASS_COUNT && n <= SMALL_MAX && g.CacheGrant?
    requires var c := ClassIndex(n); g.t in small[c].caches && SmallServes(small[c], Stride(c), g, s', b) == true
    ensures Drew(small, small[ClassIndex(n) := s'], ViaCache(g.t), n, b) == true
  {
    var c := ClassIndex(n);
    ServesPops(small[c], Stride(c), g, s', b);
    IdleElsewhere(small, c, s');
  }

  lemma DrewPool(small: seq<System>, n: nat, answer: int, s': System, b: int)
    requires |small| == CLASS_COUNT && n <= SMALL_MAX
    requires var c := ClassIndex(n); SmallServes(small[c], Stride(c), PoolGrant(answer), s', b) == true
    ensures Drew(small, small[ClassIndex(n) := s'], ViaPool, n, b) == true
  {
    var c := ClassIndex(n);
    ServesCarves(small[c], Stride(c), answer, s', b);
    IdleElsewhere(small, c, s');
  }

  lemma DrewElsewhere(small: seq<System>, via: Via, n: nat, b: int)
    requires |small| == CLASS_COUNT && n > SMALL_MAX
    ensures Drew(small, small, via, n, b) == true
  {}

  lemma GaveBackSmall(small: seq<System>, c: nat, via: Via, b: int)
    requires |small| == CLASS_COUNT && c < CLASS_COUNT
    requires via.ViaCache? ==> via.t in small[c].caches && |small[c].caches[via.t]| <= 64
    ensures GaveBack(small, small[c := SmallFree(small[c], b, via)], via, Small(c), b) == true
  {
    if via.ViaCache? { FreePushes(small[c], via.t, b); } else { FreeReclaims(small[c], b); }
    IdleElsewhere(small, c, SmallFree(small[c], b, via));
  }

  lemma GaveBackElsewhere(small: seq<System>, via: Via, owner: Owner, b: int)
    requires |small| == CLASS_COUNT && !owner.Small?
    ensures GaveBack(small, small, via, owner, b) == true
  {}

  lemma SameIsIdle(small: seq<System>)
    requires |small| == CLASS_COUNT
    ensures AllIdle(small, small) == true
  {}

  lemma ArriveIsIdle(small: seq<System>, c: nat, t: Tid)
    requires |small| == CLASS_COUNT && c < CLASS_COUNT && t !in small[c].caches
    ensures AllIdle(small, small[c := small[c].(caches := small[c].caches[t := []])]) == true
  {}

  // --------------------------------------------------------------------- one after another

  lemma IdleTwice(small: seq<System>, mid: seq<System>, small': seq<System>)
    requires AllIdle(small, mid) == true && AllIdle(mid, small') == true
    ensures AllIdle(small, small') == true
  {
    assert Opened(mid, 0) && Opened(small', 0);
    forall d | 0 <= d < CLASS_COUNT
      ensures Idle(small[d], small'[d])
    {
      assert Idle(small[d], mid[d]) && Idle(mid[d], small'[d]);
      IdleTrans(small[d], mid[d], small'[d]);
    }
  }

  lemma IdleTrans(s: System, mid: System, s': System)
    requires Idle(s, mid) && Idle(mid, s')
    ensures Idle(s, s')
  {
    forall u
      ensures CacheOf(s', u) == CacheOf(s, u)
    {
      assert CacheOf(mid, u) == CacheOf(s, u);
    }
  }

  lemma IdleFirst(s: System, mid: System, s': System, but: set<Tid>)
    requires Idle(s, mid) && SameCached(mid, s', but)
    ensures SameCached(s, s', but)
    ensures forall u {:trigger CacheOf(s, u)} :: CacheOf(s, u) == CacheOf(mid, u)
  {
    forall u
      ensures CacheOf(s, u) == CacheOf(mid, u)
    {
      assert CacheOf(mid, u) == CacheOf(s, u);
    }
  }

  lemma IdleThenDrew(small: seq<System>, mid: seq<System>, small': seq<System>, via: Via, n: nat, b: int)
    requires AllIdle(small, mid) == true && Drew(mid, small', via, n, b) == true
    ensures Drew(small, small', via, n, b) == true
  {
    assert Opened(mid, 0) && Opened(small', 0);
    if n <= 4096 {
      var c: nat :| c < CLASS_COUNT && OfClass(n, c) == true && IdleBut(mid, small', c) &&
                    GotFrom(mid[c], small'[c], c, via, b) == true;
      assert Idle(small[c], mid[c]);
      IdleThenGot(small[c], mid[c], small'[c], c, via, b);
      IdleThenBut(small, mid, small', c);
    } else {
      IdleThenBut(small, mid, small', -1);
    }
  }

  lemma IdleThenGot(s: System, mid: System, s': System, c: nat, via: Via, b: int)
    requires Idle(s, mid) && GotFrom(mid, s', c, via, b) == true
    ensures GotFrom(s, s', c, via, b) == true
  {
    assert Opened(s', 0);
    IdleFirst(s, mid, s', if via.ViaCache? then {via.t} else {});
  }

  lemma IdleThenGaveBack(small: seq<System>, mid: seq<System>, small': seq<System>, via: Via, owner: Owner, b: int)
    requires AllIdle(small, mid) == true && GaveBack(mid, small', via, owner, b) == true
    ensures GaveBack(small, small', via, owner, b) == true
  {
    assert Opened(mid, 0) && Opened(small', 0);
    IdleThenBut(small, mid, small', if owner.Small? then owner.class_ else -1);
    if owner.Small? {
      var c := owner.class_;
      assert Idle(small[c], mid[c]);
      IdleFirst(small[c], mid[c], small'[c], if via.ViaCache? then {via.t} else {});
    }
  }

  lemma IdleThenBut(small: seq<System>, mid: seq<System>, small': seq<System>, c: int)
    requires IdleBut(small, mid, -1) && IdleBut(mid, small', c)
    ensures IdleBut(small, small', c)
  {
    forall d | 0 <= d < CLASS_COUNT && d != c
      ensures Idle(small[d], small'[d])
    {
      assert Idle(small[d], mid[d]) && Idle(mid[d], small'[d]);
      IdleTrans(small[d], mid[d], small'[d]);
    }
  }

  // ------------------------------------------------------------------ what a batch consists of

  /** A batch from a shard with nothing on its free list is carved block by block, a stride
      apart, from the run in use. */
  lemma {:induction false} BatchInRun(s: Shard, stride: nat, n: nat, answers: seq<int>)
    requires StrideOK(stride) && s.free == [] && s.runs != [] && s.cut + n <= PerRun(stride)
    requires s.runs[|s.runs| - 1] > 0
    ensures var (s', bs) := TakeBatch(s, stride, n, answers);
            && |bs| == n && s'.free == [] && s'.cut == s.cut + n && s'.runs == s.runs
            && forall i :: 0 <= i < n ==> bs[i] == s.runs[|s.runs| - 1] + (s.cut + i) * stride
    decreases n
  {
    if n > 0 {
      var s1 := Carve(s, stride);
      assert s.cut * stride >= 0;
      BatchInRun(s1, stride, n - 1, answers);
      var bs := TakeBatch(s, stride, n, answers).1;
      var rest := TakeBatch(s1, stride, n - 1, answers).1;
      assert bs == [NextCell(s, stride).addr] + rest;
      forall i | 0 <= i < n
        ensures bs[i] == s.runs[|s.runs| - 1] + (s.cut + i) * stride
      {
        if i > 0 { assert bs[i] == rest[i - 1]; assert s1.cut + (i - 1) == s.cut + i; }
      }
    }
  }

  /** If there is no room in that run, or no run at all, from the start of a fresh one. */
  lemma BatchInFreshRun(s: Shard, stride: nat, n: nat, answers: seq<int>)
    requires StrideOK(stride) && s.free == [] && Exhausted(s, stride) && answers != [] && answers[0] > 0
    requires 0 < n <= PerRun(stride)
    ensures var (s', bs) := TakeBatch(s, stride, n, answers);
            && |bs| == n && s'.free == [] && s'.cut == n && s'.runs == s.runs + [answers[0]]
            && forall i :: 0 <= i < n ==> bs[i] == answers[0] + i * stride
  {
    var s1 := Carve(Shards.Refill(s, answers[0]), stride);
    BatchInRun(s1, stride, n - 1, answers[1..]);
    var bs := TakeBatch(s, stride, n, answers).1;
    var rest := TakeBatch(s1, stride, n - 1, answers[1..]).1;
    assert bs == [answers[0]] + rest;
    forall i | 0 <= i < n
      ensures bs[i] == answers[0] + i * stride
    {
      if i > 0 { assert bs[i] == rest[i - 1]; assert s1.cut + (i - 1) == i; }
    }
  }

  /** One from a shard with enough on its free list is the front of that list. */
  lemma {:induction false} BatchFromList(s: Shard, stride: nat, n: nat, answers: seq<int>)
    requires stride > 0 && n <= |s.free| && forall b :: b in s.free ==> b != 0
    ensures TakeBatch(s, stride, n, answers) == (s.(free := s.free[n..]), s.free[..n])
    decreases n
  {
    if n > 0 {
      var s1 := s.(free := s.free[1..]);
      assert s.free[0] in s.free;
      forall b | b in s1.free
        ensures b != 0
      {
        assert b in s.free;
      }
      BatchFromList(s1, stride, n - 1, answers);
      assert s.free[1..][n - 1..] == s.free[n..] && [s.free[0]] + s.free[1..][..n - 1] == s.free[..n];
    }
  }

  /** What a full cache gives back comes out of the shard again last block first. */
  lemma FlushedLastFirst(s: Shard, q: seq<int>)
    requires |q| == 64
    ensures var s' := Returned(s, q[48..]);
            |s'.free| == 16 + |s.free| && s'.free[16..] == s.free && forall i :: 0 <= i < 16 ==> s'.free[i] == q[63 - i]
  {
    PushAllReverses(s.free, q[48..]);
  }

  /** The first block that a thread gets from a shard with nothing to give yet is the last
      of 16 at the start of a fresh run; the other 15 are in its cache. */
  lemma FirstOfThread(s: System, s': System, stride: nat, t: Tid, b: int)
    requires StrideOK(stride) && 16 <= PerRun(stride) && Popped(s, s', stride, t, b)
    requires CacheOf(s, t) == [] && s.shard.free == [] && Exhausted(s.shard, stride)
    ensures s'.shard.runs != []
    ensures var run := s'.shard.runs[|s'.shard.runs| - 1];
            && b == run + 15 * stride && |CacheOf(s', t)| == 15
            && forall i :: 0 <= i < 15 ==> CacheOf(s', t)[i] == run + i * stride
  {
    var answers :| Batched(s.shard, stride, answers, s'.shard, CacheOf(s', t) + [b]) == true;
    OpenBatch(s.shard, stride, answers, s'.shard, CacheOf(s', t), b);
  }

  lemma OpenBatch(s: Shard, stride: nat, answers: seq<int>, s': Shard, q: seq<int>, b: int)
    requires StrideOK(stride) && 16 <= PerRun(stride) && s.free == [] && Exhausted(s, stride)
    requires Batched(s, stride, answers, s', q + [b]) == true
    ensures |q| == 15 && s'.runs != []
    ensures b == s'.runs[|s'.runs| - 1] + 15 * stride
    ensures forall i :: 0 <= i < 15 ==> q[i] == s'.runs[|s'.runs| - 1] + i * stride
  {
    assert Opened(q + [b], 0);
    BatchEndsIn(s, stride, 16, answers, s', q, b);
  }

  lemma BatchEndsIn(s: Shard, stride: nat, n: nat, answers: seq<int>, s': Shard, q: seq<int>, b: int)
    requires StrideOK(stride) && 0 < n <= PerRun(stride) && s.free == [] && Exhausted(s, stride)
    requires TakeBatch(s, stride, n, answers) == (s', q + [b]) && AnswersOK(s, stride, n, answers)
    ensures |q| == n - 1 && s'.runs != []
    ensures b == s'.runs[|s'.runs| - 1] + (n - 1) * stride
    ensures forall i :: 0 <= i < n - 1 ==> q[i] == s'.runs[|s'.runs| - 1] + i * stride
  {
    SomeBatch(s, stride, n, answers);
    BatchInFreshRun(s, stride, n, answers);
    LastIs(q, b);
  }

  lemma SomeBatch(s: Shard, stride: nat, n: nat, answers: seq<int>)
    requires stride > 0 && n > 0 && s.free == [] && Exhausted(s, stride) && AnswersOK(s, stride, n, answers)
    requires TakeBatch(s, stride, n, answers).1 != []
    ensures answers != [] && answers[0] > 0
  {}

  lemma LastIs(q: seq<int>, b: int)
    ensures (q + [b])[|q|] == b && forall i :: 0 <= i < |q| ==> (q + [b])[i] == q[i]
  {}
}
