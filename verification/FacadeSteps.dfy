/** One call of the facade on values: what the tiers may answer, and why the facade's
    state stays sound. */
module FacadeSteps {
  import opened Folding
  import opened SystemMemory
  import opened SizeClasses
  import opened Statistics
  import opened Tiers
  import opened TierWrites
  import opened RawMemory
  import opened FacadeState
  import opened FreedBlocks

  type TierState = Tiers.State

  // -------------------------------------------------------- what the tiers answer

  /** The answer to a raw request: the block, its payload capacity, and what the tier
      wrote on the way. */
  datatype Answer = Refused | Served(block: int, capacity: nat, writes: Memory -> Memory)

  /** The answer to a raw free: the payload capacity of the block and the tier's writes. */
  datatype Taken = Taken(capacity: nat, writes: Memory -> Memory)

  ghost predicate AnswerOK(t: TierState, size: nat, a: Answer, g: Grant) {
    forall key {:trigger Opened(a, key)} :: Opened(a, key) ==> Answers(t, size, a, g)
  }

  ghost predicate Answers(t: TierState, size: nat, a: Answer, g: Grant) {
    |t.small| == CLASS_COUNT &&
    match a
    case Refused => Starved(t, size, g)
    case Served(block, capacity, writes) =>
      && Allowed(t, size, g) && block == Given(t, size, g).lo && capacity == Given(t, size, g).hi - block
      && forall m :: Quiet(Serve(t, size, g), t, m, writes(m))
  }

  lemma OpenRefusal(t: TierState, size: nat, a: Answer, g: Grant)
    requires AnswerOK(t, size, a, g) == true && a.Refused?
    ensures Short(t, size, g) == true
  {
    assert Opened(a, 0);
  }

  /** The same, folded. */
  ghost predicate Short(t: TierState, size: nat, g: Grant) {
    forall key {:trigger Opened(g, key)} :: Opened(g, key) ==> |t.small| == CLASS_COUNT && Starved(t, size, g)
  }

  ghost predicate TakenOK(t: TierState, r: Raw, a: Taken, via: Via) {
    forall key {:trigger Opened(a, key)} :: Opened(a, key) ==> Takes(t, r, a, via)
  }

  ghost predicate Takes(t: TierState, r: Raw, a: Taken, via: Via) {
    && CanFree(t, r, via) && a.capacity == r.hi - r.lo
    && forall m :: Quiet(t, Release(t, r, via), m, a.writes(m))
  }

  /** A thread's cache for class c may come or go, with these writes. */
  ghost predicate MoveOK(t: TierState, c: nat, step: PoolSystem.Step, writes: Memory -> Memory) {
    forall key {:trigger Opened(writes, key)} :: Opened(writes, key) ==> Moves(t, c, step, writes)
  }

  ghost predicate Moves(t: TierState, c: nat, step: PoolSystem.Step, writes: Memory -> Memory) {
    CanMove(t, c, step) && forall m :: Quiet(t, Threaded(t, c, step), m, writes(m))
  }

  /** The step leads from t to t'. */
  ghost predicate ThreadedTo(t: TierState, t': TierState, c: nat, step: PoolSystem.Step) {
    forall key {:trigger Opened(step, key)} :: Opened(step, key) ==> CanMove(t, c, step) && t' == Threaded(t, c, step)
  }

  lemma ThreadedOnce(t: TierState, t1: TierState, t2: TierState, c: nat, step: PoolSystem.Step)
    requires ThreadedTo(t, t1, c, step) == true && ThreadedTo(t, t2, c, step) == true
    ensures t1 == t2
  {
    assert Opened(step, 0);
  }

  lemma OpenTaken(t: TierState, r: Raw, a: Taken, via: Via)
    requires TakenOK(t, r, a, via) == true
    ensures Takes(t, r, a, via)
  {
    assert Opened(a, 0);
  }

  // ------------------------------------------------------------------- accounting

  /** The counters agree with the issued blocks. */
  ghost predicate Accounts(c: Counters, live: Blocks) {
    && c.liveRequested == Total(live, SizeOf) && c.liveReserved == Total(live, ReservedFor)
    && c.activeAllocations == |live| && c.allocationCount - c.freeCount == |live|
    && c.allocatedBytes - c.freedBytes == c.liveRequested && c.liveRequested <= c.peakUsage
  }

  lemma AccountsAdd(c: Counters, live: Blocks, p: int, k: Block)
    requires Accounts(c, live) && p !in live && ReservedFor(k) >= 0
    ensures Accounts(Recorded(c, k.size, ReservedFor(k)), live[p := k])
  {
    TotalAdd(live, SizeOf, p, k);
    TotalAdd(live, ReservedFor, p, k);
  }

  lemma AccountsRemove(c: Counters, live: Blocks, p: int)
    requires Accounts(c, live) && p in live && ReservedFor(live[p]) >= 0
    ensures Accounts(Freed(c, live[p].size, ReservedFor(live[p])), live - {p})
  {
    TotalRemove(live, SizeOf, p);
    TotalRemove(live, ReservedFor, p);
    assert (live - {p}).Keys == live.Keys - {p};
    assert |live.Keys - {p}| == |live.Keys| - 1;
  }

  /** The reserved bytes are never below the usage. */
  lemma ReservedAtLeastUsage(t: TierState, m: Memory, live: Blocks, c: Counters)
    requires Sound(t, m, live) && Accounts(c, live)
    ensures c.liveRequested <= c.liveReserved
  {
    forall p | p in live
      ensures SizeOf(live[p]) <= ReservedFor(live[p])
    {
      ReservedCovers(m, p, live[p]);
    }
    TotalAtMost(live, SizeOf, ReservedFor);
  }

  // ------------------------------------------------------------- freed and still marked

  ghost predicate AllRetired(t: TierState, m: Memory, live: Blocks, retired: Blocks) {
    forall p :: p in retired ==> Retired(t, m, live, p, retired[p])
  }

  /** The freed blocks whose header slot is still mapped and out of the tiers' reach. */
  ghost function Survivors(t: TierState, retired: Blocks): Blocks {
    map p | p in retired && Within(t, retired[p].raw) && Beside(retired[p].raw, p - 8, p) :: retired[p]
  }

  lemma RetiredStays(t: TierState, m: Memory, live: Blocks, retired: Blocks, m1: Memory, m2: Memory, p: int, via: Via, q: int)
    requires Sound(t, m, live) == true && AllRetired(t, m, live, retired) == true && p in live && IsRaw(t, live[p].raw)
    requires Only(m, m1, live[p].raw.lo, live[p].raw.hi) == true && (!live[p].raw.owner.Large? ==> FreedMark(m1, p))
    requires Quiet(t, Release(t, live[p].raw, via), m1, m2) == true && q in Survivors(Release(t, live[p].raw, via), retired[p := live[p]])
    ensures Retired(Release(t, live[p].raw, via), m2, live - {p}, q, retired[p := live[p]][q]) == true
  {
    SurvivorsAre(Release(t, live[p].raw, via), retired[p := live[p]], q);
    if q == p {
      RetiredNew(t, live, m, m1, m2, p, via);
    } else {
      RetiredOf(t, m, live, retired, q);
      RetiredKept(t, live, m, m1, m2, p, via, q, retired[q]);
    }
  }

  lemma SurvivorsAre(t: TierState, retired: Blocks, q: int)
    requires q in Survivors(t, retired)
    ensures q in retired && Within(t, retired[q].raw) == true && Beside(retired[q].raw, q - 8, q)
  {}

  lemma RetiredOf(t: TierState, m: Memory, live: Blocks, retired: Blocks, q: int)
    requires AllRetired(t, m, live, retired) == true && q in retired
    ensures Retired(t, m, live, q, retired[q]) == true
  {}

  lemma RetiredAfterFree(t: TierState, m: Memory, live: Blocks, retired: Blocks, m1: Memory, m2: Memory, p: int, via: Via)
    requires Sound(t, m, live) && AllRetired(t, m, live, retired) && p in live
    requires Only(m, m1, live[p].raw.lo, live[p].raw.hi) && (!live[p].raw.owner.Large? ==> FreedMark(m1, p))
    requires IsRaw(t, live[p].raw) && Quiet(t, Release(t, live[p].raw, via), m1, m2)
    ensures var t' := Release(t, live[p].raw, via);
            AllRetired(t', m2, live - {p}, Survivors(t', retired[p := live[p]]))
  {
    var t' := Release(t, live[p].raw, via);
    var rest := Survivors(t', retired[p := live[p]]);
    forall q | q in rest
      ensures Retired(t', m2, live - {p}, q, rest[q]) == true
    {
      RetiredStays(t, m, live, retired, m1, m2, p, via, q);
    }
  }

  // ---------------------------------------------------------------- one call, on values

  /** The grant takes the tiers from t to t' and hands out r. */
  ghost predicate Handed(t: TierState, t': TierState, size: nat, g: Grant, r: Raw) {
    forall key {:trigger Opened(r, key)} :: Opened(r, key) ==>
      |t.small| == CLASS_COUNT && t' == Serve(t, size, g) && r == Given(t, size, g)
  }

  /** Taking r back leads from t to t'. */
  ghost predicate HandedBack(t: TierState, t': TierState, r: Raw, via: Via) {
    forall key {:trigger Opened(r, key)} :: Opened(r, key) ==> IsRaw(t, r) && t' == Release(t, r, via)
  }

  /** The grant leads from t to t'. */
  ghost predicate HandedOver(t: TierState, t': TierState, size: nat, g: Grant) {
    forall key {:trigger Opened(g, key)} :: Opened(g, key) ==> |t.small| == CLASS_COUNT && t' == Serve(t, size, g)
  }

  lemma HandedOnce(t: TierState, t1: TierState, t2: TierState, size: nat, g: Grant, r: Raw)
    requires Handed(t, t1, size, g, r) == true && HandedOver(t, t2, size, g) == true
    ensures t1 == t2
  {
    assert Opened(r, 0) && Opened(g, 0);
  }

  lemma HandedBackOnce(t: TierState, t1: TierState, t2: TierState, r: Raw, via: Via)
    requires HandedBack(t, t1, r, via) == true && HandedBack(t, t2, r, via) == true
    ensures t1 == t2
  {
    assert Opened(r, 0);
  }

  /** The tiers have gone from t to t' by handing out r for a raw request. */
  ghost predicate Fits(t: TierState, t': TierState, r: Raw, size: nat) {
    && TiersOK(t') && Gained(t, t', r) && r.owner == Route(size)
    && r.lo > 0 && r.lo % 16 == 0 && r.lo + HEADER_SIZE + size <= r.hi <= ADDRESS_LIMIT
    && (r.owner.Medium? ==> r.hi <= r.lo + HEADER_SIZE + size + 47)
  }

  lemma AnswerFits(t: TierState, m: Memory, size: nat, a: Answer, g: Grant)
    requires TiersOK(t) && a.Served? && Answers(t, size, a, g)
    ensures Fits(t, Serve(t, size, g), Given(t, size, g), size)
    ensures Quiet(Serve(t, size, g), t, m, a.writes(m))
  {
    GivenFits(t, size, g);
  }

  /** rawAllocate: the tier serves the request and the universal header is written. */
  lemma RawPlaced(t: TierState, t': TierState, m: Memory, m1: Memory, live: Blocks, r: Raw, size: nat)
    requires Sound(t, m, live) && size >= 1 && Fits(t, t', r, size) && Quiet(t', t, m, m1)
    ensures var m2, user := PutHeader(m1, r.lo, size, RawMark(r.owner, ALLOCATED)), r.lo + HEADER_SIZE;
            && user !in live && Sound(t', m2, live[user := Block(size, Plain, r, size)]) && Kept(m, m2, live)
  {
    var m2 := PutHeader(m1, r.lo, size, RawMark(r.owner, ALLOCATED));
    BackedStays(t, t', live, r);
    QuietKeepsLive(t', t, m, m1, live);
    PlainBlock(m1, r, size);
    NewOutside(t, t', live, m1, m2, r);
    KeptTrans(m, m1, m2, live);
    SoundAdd(t, m, live, t', m2, r.lo + HEADER_SIZE, Block(size, Plain, r, size));
  }

  /** What holds between rawAllocate and the rest of the call. */
  ghost predicate RawSound(m: Memory, live: Blocks, t: TierState, m': Memory, r: Raw, size: nat) {
    forall key {:trigger Opened(m', key)} :: Opened(m', key) ==> RawCoherent(m, live, t, m', r, size)
  }

  ghost predicate RawCoherent(m: Memory, live: Blocks, t: TierState, m': Memory, r: Raw, size: nat) {
    var u := r.lo + HEADER_SIZE;
    && u !in live && Sound(t, m', live[u := Block(size, Plain, r, size)]) && Kept(m, m', live)
    && r.lo > 0 && r.lo % 16 == 0 && r.hi <= ADDRESS_LIMIT
  }

  /** The same, from what the tier answers. */
  lemma RawServed(t: TierState, m: Memory, live: Blocks, size: nat, a: Answer, g: Grant)
    requires Sound(t, m, live) && size >= 1 && a.Served? && Answers(t, size, a, g)
    ensures var r := Given(t, size, g);
            var m' := PutHeader(a.writes(m), r.lo, size, Mark(TierCode(Route(size)), ALLOCATED, 0));
            && r.owner == Route(size) && a.block == r.lo > 0 && a.capacity == r.hi - r.lo
            && RawSound(m, live, Serve(t, size, g), m', r, size) == true
  {
    AnswerFits(t, m, size, a, g);
    RawPlaced(t, Serve(t, size, g), m, a.writes(m), live, Given(t, size, g), size);
    var m' := PutHeader(a.writes(m), a.block, size, Mark(TierCode(Route(size)), ALLOCATED, 0));
    CloseRaw(m, live, Serve(t, size, g), m', Given(t, size, g), size);
  }

  lemma OpenRaw(m: Memory, live: Blocks, t: TierState, m': Memory, r: Raw, size: nat)
    requires RawSound(m, live, t, m', r, size) == true
    ensures RawCoherent(m, live, t, m', r, size)
  {
    assert Opened(m', 0);
  }

  lemma CloseRaw(m: Memory, live: Blocks, t: TierState, m': Memory, r: Raw, size: nat)
    requires RawCoherent(m, live, t, m', r, size)
    ensures RawSound(m, live, t, m', r, size) == true
  {}

  lemma BackedStays(t: TierState, t': TierState, live: Blocks, r: Raw)
    requires Backed(t, live) && Gained(t, t', r)
    ensures forall q :: q in live ==> IsRaw(t', live[q].raw) && IsRaw(t, live[q].raw)
  {}

  lemma NewOutside(t: TierState, t': TierState, live: Blocks, m: Memory, m': Memory, r: Raw)
    requires Backed(t, live) && TiersOK(t') && Gained(t, t', r) && Only(m, m', r.lo, r.hi)
    ensures Kept(m, m', live)
  {
    forall q | q in live
      ensures Same(m, m', live[q].raw.lo, live[q].raw.hi)
    {
      assert IsRaw(t, live[q].raw);
      RawsApart(t', live[q].raw, r);
    }
  }

  lemma OthersStay(t: TierState, t': TierState, live: Blocks, p: int)
    requires Backed(t, live) && p in live && Lost(t, t', live[p].raw)
    ensures forall q :: q in live - {p} ==> IsRaw(t, live[q].raw) && IsRaw(t', live[q].raw)
  {
    forall q | q in live - {p}
      ensures IsRaw(t, live[q].raw) && IsRaw(t', live[q].raw)
    {
      assert !Shared(live, p, q);
    }
  }

  lemma FreeingKeeps(t: TierState, m: Memory, live: Blocks, p: int, a: Taken, via: Via, m1: Memory)
    requires Sound(t, m, live) && p in live && Takes(t, live[p].raw, a, via)
    requires Only(m, m1, live[p].raw.lo, live[p].raw.hi)
    ensures Sound(Release(t, live[p].raw, via), a.writes(m1), live - {p})
    ensures Kept(m, a.writes(m1), live - {p})
  {
    var r := live[p].raw;
    var t', m2 := Release(t, r, via), a.writes(m1);
    ReleaseKeeps(t, r, via);
    OthersKept(t, m, live, m1, p);
    assert Quiet(t, t', m1, m2);
    OthersStay(t, t', live, p);
    QuietKeepsLive(t, t', m1, m2, live - {p});
    KeptTrans(m, m1, m2, live - {p});
    SoundRemove(t, m, live, t', m2, p);
  }

  /** A new block is wrapped and poisoned by writes inside its raw block. */
  lemma Wrapped(t: TierState, m: Memory, live: Blocks, u: int, p: int, k: Block, m1: Memory, poison: bool)
    requires u !in live && k.raw.lo + HEADER_SIZE == u
    requires Sound(t, m, live[u := Block(k.under, Plain, k.raw, k.under)])
    requires BlockOK(m1, p, k) && Only(m, m1, k.raw.lo, k.raw.hi)
    ensures var m2 := Poisoned(m1, p, k.size, poison, ALLOC_POISON);
            && p !in live && Sound(t, m2, live[p := k]) && Kept(m, m2, live)
  {
    var live1, m2 := live[u := Block(k.under, Plain, k.raw, k.under)], Poisoned(m1, p, k.size, poison, ALLOC_POISON);
    PoisonKeeps(m1, p, k, poison, ALLOC_POISON);
    OnlyTrans(m, m1, m2, k.raw.lo, k.raw.hi);
    SoundRewrap(t, m, live1, m2, u, p, k);
    assert live1 - {u} == live;
  }

  /** Threads coming and going move cached blocks only. */
  lemma ThreadsQuiet(t: TierState, m: Memory, live: Blocks, retired: Blocks, t': TierState, m': Memory)
    requires Sound(t, m, live) && AllRetired(t, m, live, retired) && TiersOK(t') && Quiet(t, t', m, m')
    requires forall r :: IsRaw(t', r) <==> IsRaw(t, r)
    requires forall r :: Slotted(t, r) ==> Slotted(t', r)
    ensures Sound(t', m', live) && AllRetired(t', m', live, retired) && Kept(m, m', live)
  {
    QuietKeepsLive(t, t', m, m', live);
    HeadedFrame(m, m', live);
    forall p | p in retired
      ensures Retired(t', m', live, p, retired[p])
    {
      SlotSame(t, t', m, m', retired[p].raw, p - 8, p);
      MarkSame(m, m', p);
    }
  }

  /** A client writes inside its own block. */
  lemma ClientWrites(t: TierState, m: Memory, live: Blocks, retired: Blocks, p: int, m': Memory)
    requires Sound(t, m, live) && AllRetired(t, m, live, retired) && p in live
    requires BlockOK(m', p, live[p]) && Only(m, m', live[p].raw.lo, live[p].raw.hi)
    ensures Sound(t, m', live) && AllRetired(t, m', live, retired) && Kept(m, m', live - {p})
  {
    SoundRewrap(t, m, live, m', p, p, live[p]);
    assert (live - {p})[p := live[p]] == live;
    RetiredAside(t, m, live, retired, p, m');
  }

  /** The marks of retired blocks lie outside every block that is held. */
  lemma RetiredAside(t: TierState, m: Memory, live: Blocks, retired: Blocks, p: int, m': Memory)
    requires AllRetired(t, m, live, retired) && p in live && Only(m, m', live[p].raw.lo, live[p].raw.hi)
    ensures AllRetired(t, m', live, retired)
  {
    forall q | q in retired
      ensures Retired(t, m', live, q, retired[q])
    {
      assert Same(m, m', q - 8, q);
      MarkSame(m, m', q);
    }
  }
}
