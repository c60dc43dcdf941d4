/** The whole state of the facade, and what one public call makes of it. Invariants are
    compared with true in conclusions, so that each is proved as one fact. */
module FacadeViews {
  import opened Folding
  import opened SystemMemory
  import opened SizeClasses
  import opened Statistics
  import opened Tiers
  import opened TierWrites
  import opened RawMemory
  import opened FacadeState
  import opened FreedBlocks
  import opened FacadeSteps
  import opened DebugLayers
  import opened Alignment

  /** Everything the facade knows or keeps, but for the trace of reports. */
  datatype View = View(tiers: TierState, mem: Memory, stats: Counters, live: Blocks,
                       issued: set<int>, retired: Blocks, tracked: map<int, nat>, tombs: set<int>)

  /** The invariant of the facade; what it consists of is brought out by OpenView. */
  ghost predicate Consistent(v: View, tracking: bool) {
    forall key {:trigger Opened(v, key)} :: Opened(v, key) ==> Coherent(v, tracking)
  }

  lemma OpenView(v: View, tracking: bool)
    requires Consistent(v, tracking) == true
    ensures Coherent(v, tracking)
  {
    assert Opened(v, 0);
  }

  lemma CloseView(v: View, tracking: bool)
    requires Coherent(v, tracking)
    ensures Consistent(v, tracking) == true
  {}

  ghost predicate Coherent(v: View, tracking: bool) {
    && Sound(v.tiers, v.mem, v.live) && AllRetired(v.tiers, v.mem, v.live, v.retired)
    && Accounts(v.stats, v.live) && Known(v.live, v.issued, v.retired)
    && (tracking ==> RegistryOK(v.tracked, v.tombs, v.live, v.issued))
  }

  ghost predicate Known(live: Blocks, issued: set<int>, retired: Blocks) {
    live.Keys <= issued && retired.Keys <= issued && 0 !in issued
  }

  /** From v to w the block k was issued at p, and nothing else issued was touched. */
  ghost predicate Issued(v: View, w: View, p: int, k: Block) {
    && p > 0 && p % 16 == 0 && p !in v.live && w.live == v.live[p := k]
    && w.issued == v.issued + {p} && w.retired == map[]
    && Kept(v.mem, w.mem, v.live)
    && Booked(v.stats, w.stats, k)
  }

  /** The counters have gone from c to c' by the record of k; brought out where it matters. */
  ghost predicate Booked(c: Counters, c': Counters, k: Block) {
    forall key {:trigger Opened(k, key)} :: Opened(k, key) ==>
      k.size <= ReservedFor(k) && c' == Recorded(c, k.size, ReservedFor(k))
  }

  /** From v to w the block at p was taken back, and nothing else issued was touched. */
  ghost predicate TakenBack(v: View, w: View, p: int) {
    && p in v.live && w.live == v.live - {p} && w.issued == v.issued
    && w.retired == Survivors(w.tiers, v.retired[p := v.live[p]])
    && Kept(v.mem, w.mem, w.live)
    && ReservedFor(v.live[p]) >= 0 && w.stats == Freed(v.stats, v.live[p].size, ReservedFor(v.live[p]))
  }

  ghost predicate Filled(m: Memory, p: int, size: nat, value: Byte) {
    forall x :: p <= x < p + size ==> m.bytes(x) == value
  }

  /** Counters that have counted nothing. */
  predicate NothingYet(c: Counters) {
    && c.allocationCount == 0 && c.freeCount == 0 && c.activeAllocations == 0 && c.liveRequested == 0
    && c.liveReserved == 0 && c.peakUsage == 0 && c.allocatedBytes == 0 && c.freedBytes == 0
  }

  lemma NothingIssued(v: View, tracking: bool)
    requires Sound(v.tiers, v.mem, v.live) && NothingYet(v.stats) && v.live.Keys == v.retired.Keys == {}
    requires v.issued == {} && v.tracked == map[] && v.tombs == {}
    ensures Consistent(v, tracking) == true
  {
    NothingCounted(v.stats, v.live);
    NothingTracked(v.tracked, v.tombs, v.live, v.issued);
    CloseView(v, tracking);
  }

  lemma NothingSound(t: TierState, m: Memory, none: Blocks)
    requires TiersOK(t) && (forall r :: !IsRaw(t, r)) && none.Keys == {}
    ensures Sound(t, m, none)
  {
    NothingBacked(t, none);
  }

  /** An allocator may start on tiers that have mapped nothing yet. */
  lemma FreshStart(t: TierState, m: Memory, none: Blocks)
    requires t == START_STATE && none.Keys == {}
    ensures Sound(t, m, none) == true
  {
    StartOK();
    NothingSound(t, m, none);
  }

  lemma NothingBacked(t: TierState, none: Blocks)
    requires (forall r :: !IsRaw(t, r)) && none.Keys == {}
    ensures Backed(t, none)
  {}

  lemma NothingCounted(c: Counters, none: Blocks)
    requires NothingYet(c) && none.Keys == {}
    ensures Accounts(c, none)
  {}

  lemma NothingTracked(tracked: map<int, nat>, tombs: set<int>, none: Blocks, issued: set<int>)
    requires none.Keys == {} && tracked == map[] && tombs == {} && issued == {}
    ensures RegistryOK(tracked, tombs, none, issued)
  {}

  // ------------------------------------------------------------------------- allocation

  /** What allocate asks of the tiers, and how it dresses the raw block. */
  function Dress(guards: bool): nat {
    if guards then FRONT_GUARD + REAR_GUARD else 0
  }

  function Dressed(m: Memory, u: int, size: nat, guards: bool): Memory {
    if guards then Guarding(m, u + FRONT_GUARD, size) else m
  }

  function DressedAt(u: int, guards: bool): int {
    if guards then u + FRONT_GUARD else u
  }

  function DressedBlock(size: nat, r: Raw, guards: bool): Block {
    Block(size, if guards then Guarded else Plain, r, size + Dress(guards))
  }

  lemma DressedOK(m: Memory, r: Raw, size: nat, guards: bool)
    requires size >= 1
    requires BlockOK(m, r.lo + HEADER_SIZE, Block(size + Dress(guards), Plain, r, size + Dress(guards))) == true
    ensures var u := r.lo + HEADER_SIZE;
            var m1, p := Dressed(m, u, size, guards), DressedAt(u, guards);
            && BlockOK(m1, p, DressedBlock(size, r, guards)) == true && Only(m, m1, r.lo, r.hi) == true
            && (guards ==> GuardsIntact(m1, p, size) == true)
  {
    if guards { DressedInGuards(m, r, size); } else { SameMemory(m, r.lo, r.hi); }
  }

  lemma DressedInGuards(m: Memory, r: Raw, size: nat)
    requires size >= 1 && BlockOK(m, r.lo + HEADER_SIZE, Block(size + Dress(true), Plain, r, size + Dress(true))) == true
    ensures var u := r.lo + HEADER_SIZE;
            var m1, p := Dressed(m, u, size, true), DressedAt(u, true);
            && BlockOK(m1, p, DressedBlock(size, r, true)) == true && Only(m, m1, r.lo, r.hi) == true
            && GuardsIntact(m1, p, size) == true
  {
    GuardedBlock(m, r, size);
  }

  lemma PoisonFills(m: Memory, p: int, size: nat, poison: bool)
    ensures var m1 := Poisoned(m, p, size, poison, ALLOC_POISON);
            && (poison ==> Filled(m1, p, size, ALLOC_POISON) == true)
            && (GuardsIntact(m, p, size) == true ==> GuardsIntact(m1, p, size) == true)
  {}

  lemma RawServedIn(v: View, tracking: bool, size: nat, a: Answer, g: Grant) returns (t: TierState, r: Raw)
    requires Consistent(v, tracking) == true && size >= 1 && a.Served? && AnswerOK(v.tiers, size, a, g) == true
    ensures var m' := PutHeader(a.writes(v.mem), r.lo, size, Mark(TierCode(Route(size)), ALLOCATED, 0));
            && Handed(v.tiers, t, size, g, r) == true
            && r.owner == Route(size) && a.block == r.lo > 0 && a.capacity == r.hi - r.lo
            && RawSound(v.mem, v.live, t, m', r, size) == true && Only(a.writes(v.mem), m', r.lo, r.hi) == true
  {
    OpenView(v, tracking);
    assert Opened(a, 0);
    RawServed(v.tiers, v.mem, v.live, size, a, g);
    t, r := Serve(v.tiers, size, g), Given(v.tiers, size, g);
    HeaderOnly(a.writes(v.mem), v, t, r, size, Mark(TierCode(Route(size)), ALLOCATED, 0));
  }

  lemma HeaderOnly(m: Memory, v: View, t: TierState, r: Raw, size: nat, mark: Mark)
    requires RawSound(v.mem, v.live, t, PutHeader(m, r.lo, size, mark), r, size) == true
    ensures Only(m, PutHeader(m, r.lo, size, mark), r.lo, r.hi) == true
  {
    RawBlockOK(v, t, PutHeader(m, r.lo, size, mark), r, size);
    PutHeaderOnly(m, r.lo, size, mark);
    OnlyWiden(m, PutHeader(m, r.lo, size, mark), r.lo, r.lo + 16, r.lo, r.hi);
  }

  lemma PoisonOnly(m: Memory, m1: Memory, p: int, k: Block, poison: bool)
    requires BlockOK(m1, p, k) == true && Only(m, m1, k.raw.lo, k.raw.hi) == true
    ensures Only(m, Poisoned(m1, p, k.size, poison, ALLOC_POISON), k.raw.lo, k.raw.hi) == true
  {
    PoisonKeeps(m1, p, k, poison, ALLOC_POISON);
    OnlyTrans(m, m1, Poisoned(m1, p, k.size, poison, ALLOC_POISON), k.raw.lo, k.raw.hi);
  }

  /** The state after a block was wrapped as k at p and poisoned. */
  ghost function IssuedView(v: View, t: TierState, m: Memory, p: int, k: Block, tracking: bool): View
    requires ReservedFor(k) >= 0
  {
    View(t, m, Recorded(v.stats, k.size, ReservedFor(k)), v.live[p := k], v.issued + {p}, map[],
         if tracking then v.tracked[p := k.size] else v.tracked, if tracking then v.tombs - {p} else v.tombs)
  }

  /** From the raw block to the issued one. */
  lemma IssueKeeps(v: View, tracking: bool, t: TierState, m: Memory, m1: Memory, p: int, k: Block, poison: bool)
    requires Consistent(v, tracking) == true && RawSound(v.mem, v.live, t, m, k.raw, k.under) == true
    requires BlockOK(m1, p, k) == true && Only(m, m1, k.raw.lo, k.raw.hi) == true && p % 16 == 0
    ensures ReservedFor(k) >= 0
    ensures var w := IssuedView(v, t, Poisoned(m1, p, k.size, poison, ALLOC_POISON), p, k, tracking);
            Consistent(w, tracking) == true && Issued(v, w, p, k) == true
  {
    var m2 := Poisoned(m1, p, k.size, poison, ALLOC_POISON);
    ReservedCovers(m1, p, k);
    IssueSound(v, t, m, m1, p, k, poison);
    IssueCoherent(v, tracking, t, m2, p, k);
    CloseView(IssuedView(v, t, m2, p, k, tracking), tracking);
  }

  lemma IssueCoherent(v: View, tracking: bool, t: TierState, m: Memory, p: int, k: Block)
    requires Consistent(v, tracking) == true && ReservedFor(k) >= 0 && p > 0 && p !in v.live
    requires Sound(t, m, v.live[p := k]) == true
    ensures Coherent(IssuedView(v, t, m, p, k, tracking), tracking) == true
  {
    OpenView(v, tracking);
    IssueBooks(v, t, m, p, k, tracking);
  }

  lemma IssueSound(v: View, t: TierState, m: Memory, m1: Memory, p: int, k: Block, poison: bool)
    requires RawSound(v.mem, v.live, t, m, k.raw, k.under) == true && BlockOK(m1, p, k) && Only(m, m1, k.raw.lo, k.raw.hi)
    ensures var m2 := Poisoned(m1, p, k.size, poison, ALLOC_POISON);
            p !in v.live && p > 0 && Sound(t, m2, v.live[p := k]) == true && Kept(v.mem, m2, v.live) == true
  {
    OpenRaw(v.mem, v.live, t, m, k.raw, k.under);
    UserInside(m1, p, k);
    Wrapped(t, m, v.live, k.raw.lo + HEADER_SIZE, p, k, m1, poison);
    KeptTrans(v.mem, m, Poisoned(m1, p, k.size, poison, ALLOC_POISON), v.live);
  }

  lemma IssueBooks(v: View, t: TierState, m: Memory, p: int, k: Block, tracking: bool)
    requires Accounts(v.stats, v.live) && Known(v.live, v.issued, v.retired) && p !in v.live && p > 0
    requires tracking ==> RegistryOK(v.tracked, v.tombs, v.live, v.issued)
    requires ReservedFor(k) >= 0
    ensures var w := IssuedView(v, t, m, p, k, tracking);
            && Accounts(w.stats, w.live) && Known(w.live, w.issued, w.retired)
            && (tracking ==> RegistryOK(w.tracked, w.tombs, w.live, w.issued))
  {
    AccountsAdd(v.stats, v.live, p, k);
    if tracking { RegistryAdd(v.tracked, v.tombs, v.live, v.issued, p, k); }
  }

  /** allocate after rawAllocate: guards if any, poison if any, and the books. */
  lemma AllocateKeeps(v: View, tracking: bool, t: TierState, m: Memory, r: Raw, size: nat, guards: bool, poison: bool)
    requires Consistent(v, tracking) == true && RawSound(v.mem, v.live, t, m, r, size + Dress(guards)) == true
    requires size >= 1
    ensures var u, k := r.lo + HEADER_SIZE, DressedBlock(size, r, guards);
            var p, m1 := DressedAt(u, guards), Poisoned(Dressed(m, u, size, guards), DressedAt(u, guards), size, poison, ALLOC_POISON);
            && ReservedFor(k) >= 0 && Consistent(IssuedView(v, t, m1, p, k, tracking), tracking) == true
            && Issued(v, IssuedView(v, t, m1, p, k, tracking), p, k) == true
            && (poison ==> Filled(m1, p, size, ALLOC_POISON) == true)
            && (guards ==> GuardsIntact(m1, p, size) == true) && Only(m, m1, r.lo, r.hi) == true
  {
    var u, k := r.lo + HEADER_SIZE, DressedBlock(size, r, guards);
    var p, m1 := DressedAt(u, guards), Dressed(m, u, size, guards);
    RawBlockOK(v, t, m, r, size + Dress(guards));
    DressedOK(m, r, size, guards);
    DressedMultiple(r.lo, guards);
    WrapKeeps(v, tracking, t, m, m1, p, k, guards, poison);
  }

  lemma DressedMultiple(lo: int, guards: bool)
    requires lo % 16 == 0
    ensures DressedAt(lo + HEADER_SIZE, guards) % 16 == 0
  {}

  /** A wrapped block, whatever the wrapping, as it is issued and poisoned. */
  lemma WrapKeeps(v: View, tracking: bool, t: TierState, m: Memory, m1: Memory, p: int, k: Block, guards: bool, poison: bool)
    requires Consistent(v, tracking) == true && RawSound(v.mem, v.live, t, m, k.raw, k.under) == true
    requires BlockOK(m1, p, k) == true && Only(m, m1, k.raw.lo, k.raw.hi) == true && p % 16 == 0
    requires guards ==> GuardsIntact(m1, p, k.size) == true
    ensures var m2 := Poisoned(m1, p, k.size, poison, ALLOC_POISON);
            && ReservedFor(k) >= 0 && Consistent(IssuedView(v, t, m2, p, k, tracking), tracking) == true
            && Issued(v, IssuedView(v, t, m2, p, k, tracking), p, k) == true
            && (poison ==> Filled(m2, p, k.size, ALLOC_POISON) == true)
            && (guards ==> GuardsIntact(m2, p, k.size) == true) && Only(m, m2, k.raw.lo, k.raw.hi) == true
  {
    IssueKeeps(v, tracking, t, m, m1, p, k, poison);
    PoisonFills(m1, p, k.size, poison);
    PoisonOnly(m, m1, p, k, poison);
  }

  lemma RawBlockOK(v: View, t: TierState, m: Memory, r: Raw, size: nat)
    requires RawSound(v.mem, v.live, t, m, r, size) == true
    ensures BlockOK(m, r.lo + HEADER_SIZE, Block(size, Plain, r, size)) == true
    ensures r.lo > 0 && r.lo % 16 == 0 && r.lo + HEADER_SIZE + size <= r.hi <= ADDRESS_LIMIT
  {
    OpenRaw(v.mem, v.live, t, m, r, size);
    var u := r.lo + HEADER_SIZE;
    assert v.live[u := Block(size, Plain, r, size)][u] == Block(size, Plain, r, size);
  }

  /** alignedAllocate after rawAllocate: the shim, poison if any, and the books. */
  lemma AlignKeeps(v: View, tracking: bool, t: TierState, m: Memory, r: Raw, size: nat, alignment: nat, poison: bool)
    requires Consistent(v, tracking) == true && RawSound(v.mem, v.live, t, m, r, size + alignment) == true
    requires size >= 1 && Aligning(alignment) == true && 16 < alignment <= MAX_ALIGNMENT
    ensures r.lo > 0
    ensures var u, k := r.lo + HEADER_SIZE, Block(size, Aligned, r, size + alignment);
            var p := AlignedUser(u, alignment);
            && AlignedTo(p, alignment) == true && 16 <= p - u <= alignment && p - u < 0x1_0000_0000
            && var m1 := Poisoned(Shimming(m, p, size, p - u), p, size, poison, ALLOC_POISON);
            && ReservedFor(k) >= 0 && Consistent(IssuedView(v, t, m1, p, k, tracking), tracking) == true
            && Issued(v, IssuedView(v, t, m1, p, k, tracking), p, k) == true
            && (poison ==> Filled(m1, p, size, ALLOC_POISON) == true) && Only(m, m1, r.lo, r.hi) == true
  {
    var u, k := r.lo + HEADER_SIZE, Block(size, Aligned, r, size + alignment);
    RawBlockOK(v, t, m, r, size + alignment);
    AlignedOffset(u, alignment);
    var p := AlignedUser(u, alignment);
    AlignedBlock(m, r, size + alignment, p, size);
    WrapKeeps(v, tracking, t, m, Shimming(m, p, size, p - u), p, k, false, poison);
  }

  // ----------------------------------------------------------------------------- headers

  /** What deallocate and allocationSize read below an issued pointer. */
  ghost predicate UserHeader(m: Memory, p: int, k: Block) {
    var h := p - HEADER_SIZE;
    && SizeAt(m, h) == k.size && LooksIssued(m, p) && p - OffsetAt(m, h) == RawUser(k)
    && (TierAt(m, h) == DEBUG_TIER <==> k.kind.Guarded?)
    && (TierAt(m, h) == ALIGNED_TIER <==> k.kind.Aligned?)
  }

  lemma BlockHeader(m: Memory, p: int, k: Block)
    requires BlockOK(m, p, k)
    ensures UserHeader(m, p, k) == true
  {
    HeaderReads(m, p - HEADER_SIZE, k.size, UserMark(p, k));
  }

  /** The marks in the header below an issued pointer. */
  function UserMark(p: int, k: Block): Mark {
    match k.kind
    case Plain => RawMark(k.raw.owner, ALLOCATED)
    case Aligned => Mark(ALIGNED_TIER, ALLOCATED, if p >= RawUser(k) then p - RawUser(k) else 0)
    case Guarded => Mark(DEBUG_TIER, ALLOCATED, FRONT_GUARD)
  }

  /** What rawDeallocate reads at the raw block. */
  lemma RawHeader(m: Memory, p: int, k: Block)
    requires BlockOK(m, p, k) == true
    ensures SizeAt(m, k.raw.lo) == k.under && TierAt(m, k.raw.lo) == TierCode(k.raw.owner)
    ensures k.raw.owner == Route(k.under)
  {
    HeaderReads(m, k.raw.lo, k.under, RawMark(k.raw.owner, ALLOCATED));
  }

  lemma LiveHeader(v: View, tracking: bool, p: int)
    requires Consistent(v, tracking) == true && p in v.live
    ensures UserHeader(v.mem, p, v.live[p]) == true && BlockOK(v.mem, p, v.live[p]) == true
    ensures p > 0 && p in v.issued && (tracking ==> p in v.tracked)
    ensures v.live[p].raw.owner == Route(v.live[p].under) && v.live[p].size >= 1
  {
    OpenView(v, tracking);
    BlockHeader(v.mem, p, v.live[p]);
    LivePositive(v, p);
  }

  lemma LivePositive(v: View, p: int)
    requires Sound(v.tiers, v.mem, v.live) && p in v.live
    ensures p > 0
  {
    var g := RawInside(v.tiers, v.live[p].raw);
    UserInside(v.mem, p, v.live[p]);
  }

  /** With tracking, the registry knows exactly which pointers are issued, and which once
      were. */
  lemma TrackedExactly(v: View, p: int)
    requires Consistent(v, true) == true
    ensures p in v.tracked <==> p in v.live
    ensures p in v.tombs <==> p in v.issued && p !in v.live
  {
    OpenView(v, true);
  }

  lemma RetiredHeader(v: View, tracking: bool, p: int)
    requires Consistent(v, tracking) == true && p in v.retired
    ensures FreedMark(v.mem, p) && p !in v.live && p in v.issued && p != 0
  {
    OpenView(v, tracking);
    RetiredNotLive(v.tiers, v.mem, v.live, p, v.retired[p]);
  }

  // ----------------------------------------------------------------------------- freeing

  /** The state after the block at p was taken back. */
  ghost function FreedView(v: View, t: TierState, m: Memory, p: int, tracking: bool): View
    requires p in v.live && ReservedFor(v.live[p]) >= 0
  {
    View(t, m, Freed(v.stats, v.live[p].size, ReservedFor(v.live[p])), v.live - {p}, v.issued,
         Survivors(t, v.retired[p := v.live[p]]),
         if tracking then v.tracked - {p} else v.tracked, if tracking then v.tombs + {p} else v.tombs)
  }

  /** deallocate of an issued block: m is what the facade leaves to the tier. */
  lemma FreeKeeps(v: View, tracking: bool, p: int, a: Taken, via: Via, m: Memory) returns (t: TierState)
    requires Consistent(v, tracking) == true && p in v.live && TakenOK(v.tiers, v.live[p].raw, a, via) == true
    requires Only(v.mem, m, v.live[p].raw.lo, v.live[p].raw.hi) == true
    requires !v.live[p].raw.owner.Large? ==> FreedMark(m, p)
    ensures HandedBack(v.tiers, t, v.live[p].raw, via) == true && ReservedFor(v.live[p]) >= 0
    ensures var w := FreedView(v, t, a.writes(m), p, tracking);
            Consistent(w, tracking) == true && TakenBack(v, w, p) == true
  {
    t := FreeSound(v, tracking, p, a, via, m);
    FreeBooks(v, tracking, t, a.writes(m), p);
    CloseFreed(v, tracking, t, a.writes(m), p);
  }

  lemma FreeSound(v: View, tracking: bool, p: int, a: Taken, via: Via, m: Memory) returns (t: TierState)
    requires Consistent(v, tracking) == true && p in v.live && TakenOK(v.tiers, v.live[p].raw, a, via) == true
    requires Only(v.mem, m, v.live[p].raw.lo, v.live[p].raw.hi) == true
    requires !v.live[p].raw.owner.Large? ==> FreedMark(m, p)
    ensures HandedBack(v.tiers, t, v.live[p].raw, via) == true
    ensures Sound(t, a.writes(m), v.live - {p}) == true && Kept(v.mem, a.writes(m), v.live - {p}) == true
    ensures AllRetired(t, a.writes(m), v.live - {p}, Survivors(t, v.retired[p := v.live[p]])) == true
  {
    OpenView(v, tracking);
    OpenTaken(v.tiers, v.live[p].raw, a, via);
    t := Release(v.tiers, v.live[p].raw, via);
    FreeingKeeps(v.tiers, v.mem, v.live, p, a, via, m);
    assert Quiet(v.tiers, t, m, a.writes(m));
    RetiredAfterFree(v.tiers, v.mem, v.live, v.retired, m, a.writes(m), p, via);
  }

  lemma FreeBooks(v: View, tracking: bool, t: TierState, m: Memory, p: int)
    requires Consistent(v, tracking) == true && p in v.live
    ensures ReservedFor(v.live[p]) >= 0 && BooksOK(FreedView(v, t, m, p, tracking), tracking) == true
  {
    OpenView(v, tracking);
    ReservedCovers(v.mem, p, v.live[p]);
    AccountsRemove(v.stats, v.live, p);
    if tracking { RegistryRemove(v.tracked, v.tombs, v.live, v.issued, p); }
  }

  /** The counters, the record of what was ever issued and the registry fit the issued blocks. */
  ghost predicate BooksOK(v: View, tracking: bool) {
    && Accounts(v.stats, v.live) && Known(v.live, v.issued, v.retired)
    && (tracking ==> RegistryOK(v.tracked, v.tombs, v.live, v.issued))
  }

  lemma CloseFreed(v: View, tracking: bool, t: TierState, m: Memory, p: int)
    requires p in v.live && ReservedFor(v.live[p]) >= 0
    requires var w := FreedView(v, t, m, p, tracking);
             && BooksOK(w, tracking) == true && Sound(w.tiers, w.mem, w.live) == true && AllRetired(w.tiers, w.mem, w.live, w.retired) == true
    ensures Consistent(FreedView(v, t, m, p, tracking), tracking) == true
  {
    CloseView(FreedView(v, t, m, p, tracking), tracking);
  }

  // ------------------------------------------------------------- writes of the clients

  /** A byte that a client may write, or spoil: one of its own, or one of its guards. */
  predicate Spoils(k: Block, p: int, x: int) {
    || p <= x < p + k.size
    || (k.kind.Guarded? && (p - FRONT_GUARD <= x < p - HEADER_SIZE || p + k.size <= x < p + k.size + REAR_GUARD))
  }

  lemma WriteKeeps(v: View, tracking: bool, p: int, m: Memory, lo: int, hi: int)
    requires Consistent(v, tracking) == true && p in v.live && Only(v.mem, m, lo, hi) == true && lo < hi
    requires Spoils(v.live[p], p, lo) && Spoils(v.live[p], p, hi - 1)
    requires (p <= lo && hi <= p + v.live[p].size) || hi == lo + 1
    ensures Consistent(v.(mem := m), tracking) == true && Kept(v.mem, m, v.live - {p}) == true
  {
    OpenView(v, tracking);
    SpoilKeepsBlock(v.mem, m, p, v.live[p], lo, hi);
    ClientWrites(v.tiers, v.mem, v.live, v.retired, p, m);
    Rewritten(v, tracking, m);
  }

  lemma SpoilKeepsBlock(m: Memory, m': Memory, p: int, k: Block, lo: int, hi: int)
    requires BlockOK(m, p, k) && Only(m, m', lo, hi) && lo < hi && Spoils(k, p, lo) && Spoils(k, p, hi - 1)
    requires (p <= lo && hi <= p + k.size) || hi == lo + 1
    ensures BlockOK(m', p, k) == true && Only(m, m', k.raw.lo, k.raw.hi) == true
  {
    UserInside(m, p, k);
    WriteKeepsBlock(m, m', p, k, lo, hi);
  }

  lemma Rewritten(v: View, tracking: bool, m: Memory)
    requires Coherent(v, tracking) && Sound(v.tiers, m, v.live) == true
    requires AllRetired(v.tiers, m, v.live, v.retired) == true
    ensures Consistent(v.(mem := m), tracking) == true
  {
    CloseView(v.(mem := m), tracking);
  }

  // ------------------------------------------------------------------------------ moves

  function Min(a: nat, b: nat): nat {
    if a < b then a else b
  }

  /** From v to w the block at p was moved to q with a new size: the bytes that fit went
      along, and nothing else issued was touched. */
  ghost predicate Moved(v: View, w: View, p: int, q: int, k: Block) {
    && p in v.live && q !in v.live && q > 0 && q % 16 == 0
    && w.live == (v.live - {p})[q := k] && w.issued == v.issued + {q}
    && Kept(v.mem, w.mem, v.live - {p})
    && var n := Min(v.live[p].size, k.size); Contents(w.mem, q, n) == Contents(v.mem, p, n)
  }

  lemma MovedByParts(v: View, v1: View, m: Memory, w: View, p: int, q: int, k: Block)
    requires p in v.live && BlockOK(v.mem, p, v.live[p]) == true && Issued(v, v1, q, k) == true
    requires BlockOK(m, q, k) == true && m == Copy(v1.mem, q, p, Min(v.live[p].size, k.size))
    requires Kept(v1.mem, m, v1.live - {q}) == true && TakenBack(v1.(mem := m), w, p) == true
    ensures Moved(v, w, p, q, k) == true
  {
    MovedLive(v.live, v1.live, w.live, p, q, k);
    KeptThrough(v.mem, v1.mem, m, w.mem, v.live, w.live, p);
    assert w.live[q] == k;
    MovedContents(v.mem, v1.mem, m, w.mem, p, v.live[p], q, k);
  }

  lemma MovedLive(live: Blocks, live1: Blocks, live2: Blocks, p: int, q: int, k: Block)
    requires p in live && q !in live && live1 == live[q := k] && live2 == live1 - {p}
    ensures live2 == (live - {p})[q := k] && live1 - {q} == live
    ensures forall x :: x in live && x != p ==> x in live2 && live2[x] == live[x]
  {}

  lemma MovedContents(m0: Memory, m1: Memory, m2: Memory, m3: Memory, p: int, j: Block, q: int, k: Block)
    requires BlockOK(m0, p, j) == true && BlockOK(m2, q, k) == true && m2 == Copy(m1, q, p, Min(j.size, k.size))
    requires Same(m0, m1, j.raw.lo, j.raw.hi) && Same(m2, m3, k.raw.lo, k.raw.hi)
    ensures var n := Min(j.size, k.size); Contents(m3, q, n) == Contents(m0, p, n)
  {
    var n := Min(j.size, k.size);
    UserInside(m0, p, j);
    UserInside(m2, q, k);
    SameContents(m0, m1, j.raw.lo, j.raw.hi, p, n);
    CopyContents(m1, q, p, n);
    SameContents(m2, m3, k.raw.lo, k.raw.hi, q, n);
  }

  /** The copy of reallocate is a write inside the new block. */
  lemma CopyKeeps(v: View, tracking: bool, q: int, p: int, n: nat)
    requires Consistent(v, tracking) == true && q in v.live && 0 < n <= v.live[q].size
    ensures var m := Copy(v.mem, q, p, n);
            && Consistent(v.(mem := m), tracking) == true && Kept(v.mem, m, v.live - {q}) == true
            && BlockOK(m, q, v.live[q]) == true
  {
    var m := Copy(v.mem, q, p, n);
    CopyOnly(v.mem, q, p, n);
    WriteKeeps(v, tracking, q, m, q, q + n);
    LiveHeader(v.(mem := m), tracking, q);
  }

  lemma KeptThrough(m0: Memory, m1: Memory, m2: Memory, m3: Memory, live: Blocks, rest: Blocks, p: int)
    requires Kept(m0, m1, live) && Kept(m1, m2, live) && Kept(m2, m3, rest)
    requires forall x :: x in live && x != p ==> x in rest && rest[x] == live[x]
    ensures Kept(m0, m3, live - {p})
  {
    KeptTrans(m0, m1, m2, live);
    forall x | x in live - {p}
      ensures Same(m0, m3, live[x].raw.lo, live[x].raw.hi)
    {
      assert rest[x] == live[x];
      SameTrans(m0, m2, m3, live[x].raw.lo, live[x].raw.hi);
    }
  }

  lemma GuardsSame(m: Memory, m': Memory, p: int, k: Block)
    requires BlockOK(m, p, k) == true && Same(m, m', k.raw.lo, k.raw.hi) && k.kind.Guarded?
    ensures GuardsIntact(m, p, k.size) <==> GuardsIntact(m', p, k.size)
  {}

  lemma GuardsKept(v: View, v1: View, m: Memory, p: int, q: int, k: Block)
    requires p in v.live && BlockOK(v.mem, p, v.live[p]) == true && Issued(v, v1, q, k) == true
    requires Kept(v1.mem, m, v1.live - {q}) == true && v.live[p].kind.Guarded?
    ensures GuardsIntact(v.mem, p, v.live[p].size) <==> GuardsIntact(m, p, v.live[p].size)
  {
    var j := v.live[p];
    assert p in v1.live - {q} && (v1.live - {q})[p] == j;
    SameTrans(v.mem, v1.mem, m, j.raw.lo, j.raw.hi);
    GuardsSame(v.mem, m, p, j);
  }

  // ---------------------------------------------------------------------------- threads

  lemma ThreadKeeps(v: View, tracking: bool, c: nat, step: PoolSystem.Step, writes: Memory -> Memory)
    requires Consistent(v, tracking) == true && MoveOK(v.tiers, c, step, writes) == true
    ensures CanMove(v.tiers, c, step)
    ensures var t := Threaded(v.tiers, c, step);
            Consistent(v.(tiers := t, mem := writes(v.mem)), tracking) == true && Kept(v.mem, writes(v.mem), v.live) == true
  {
    assert Opened(writes, 0);
    OpenView(v, tracking);
    var t, m := Threaded(v.tiers, c, step), writes(v.mem);
    ThreadedKeeps(v.tiers, c, step);
    assert Quiet(v.tiers, t, v.mem, m);
    ThreadsQuiet(v.tiers, v.mem, v.live, v.retired, t, m);
    CloseView(v.(tiers := t, mem := m), tracking);
  }
}
