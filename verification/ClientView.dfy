/** What a client sees of the allocator: the contents of its blocks, and the books that are
    kept about them. */
module ClientViews {
  import opened Folding
  import opened Sums
  import opened PoolSystem
  import opened Tags
  import opened Tiers
  import opened TierWrites
  import opened RawMemory
  import opened FacadeState
  import opened FacadeSteps
  import opened FacadeViews
  import opened FreedBlocks
  import opened AllocatorImpls

  // --------------------------------------------------------------- what a client sees

  /** The blocks a client holds, with their contents. */
  ghost function Held(m: Memory, live: Blocks): map<int, seq<Byte>> {
    map p | p in live :: Contents(m, p, live[p].size)
  }

  lemma HeldKept(m: Memory, m': Memory, live: Blocks)
    requires Headed(m, live) == true && Kept(m, m', live) == true
    ensures Held(m', live) == Held(m, live)
  {
    forall p | p in live
      ensures Contents(m', p, live[p].size) == Contents(m, p, live[p].size)
    {
      UserInside(m, p, live[p]);
      SameContents(m, m', live[p].raw.lo, live[p].raw.hi, p, live[p].size);
    }
  }

  lemma ViewHeaded(v: View, tracking: bool)
    requires Consistent(v, tracking) == true
    ensures Headed(v.mem, v.live) == true
  {
    OpenView(v, tracking);
  }

  lemma LiveRaw(v: View, tracking: bool, p: int)
    requires Consistent(v, tracking) == true && p in v.live
    ensures IsRaw(v.tiers, v.live[p].raw)
  {
    OpenView(v, tracking);
  }

  /** A new block joins the others, whose contents are as before. */
  lemma HeldIssued(v: View, w: View, tracking: bool, p: int, k: Block)
    requires Consistent(v, tracking) == true && Issued(v, w, p, k) == true
    ensures p !in Held(v.mem, v.live) && p > 0 && p % 16 == 0
    ensures Held(w.mem, w.live) == Held(v.mem, v.live)[p := Contents(w.mem, p, k.size)]
  {
    ViewHeaded(v, tracking);
    HeldKept(v.mem, w.mem, v.live);
  }

  lemma HeldTaken(v: View, w: View, tracking: bool, p: int)
    requires Consistent(v, tracking) == true && TakenBack(v, w, p) == true
    ensures Held(w.mem, w.live) == Held(v.mem, v.live) - {p}
  {
    ViewHeaded(v, tracking);
    HeadedLess(v.mem, v.live, p);
    HeldKept(v.mem, w.mem, w.live);
    HeldLess(v.mem, v.live, p);
  }

  lemma HeadedLess(m: Memory, live: Blocks, p: int)
    requires Headed(m, live) == true
    ensures Headed(m, live - {p}) == true
  {}

  lemma HeldLess(m: Memory, live: Blocks, p: int)
    ensures Held(m, live - {p}) == Held(m, live) - {p}
  {}

  lemma HeldMore(m: Memory, live: Blocks, q: int, k: Block)
    ensures Held(m, live[q := k]) == Held(m, live)[q := Contents(m, q, k.size)]
  {}

  lemma NotNull(v: View, tracking: bool)
    requires Consistent(v, tracking) == true
    ensures 0 !in v.live
  {
    OpenView(v, tracking);
  }

  /** Writing a byte of one block. */
  lemma HeldWritten(v: View, w: View, tracking: bool, p: int, i: nat, value: Byte)
    requires Consistent(v, tracking) == true && w.live == v.live && p in v.live && i < v.live[p].size
    requires Kept(v.mem, w.mem, v.live - {p}) == true && w.mem.bytes(p + i) == value
    requires forall y :: y != p + i ==> w.mem.bytes(y) == v.mem.bytes(y)
    ensures Held(w.mem, w.live) == Held(v.mem, v.live)[p := Held(v.mem, v.live)[p][i := value]]
  {
    ViewHeaded(v, tracking);
    HeadedLess(v.mem, v.live, p);
    HeldKept(v.mem, w.mem, v.live - {p});
    HeldLess(v.mem, v.live, p);
    HeldLess(w.mem, v.live, p);
    ContentsWritten(v.mem, w.mem, p, v.live[p].size, i, value);
    WholeFromLess(Held(v.mem, v.live), Held(w.mem, v.live), p);
  }

  /** Copying to the front of one block. */
  lemma HeldCopied(v: View, m: Memory, tracking: bool, q: int, p: int, n: nat)
    requires Consistent(v, tracking) == true && q in v.live && p in v.live && n <= v.live[q].size && n <= v.live[p].size
    requires Kept(v.mem, m, v.live - {q}) == true && m == Copy(v.mem, q, p, n)
    ensures var h := Held(v.mem, v.live);
            Held(m, v.live) == h[q := h[p][..n] + h[q][n..]]
  {
    ViewHeaded(v, tracking);
    HeadedLess(v.mem, v.live, q);
    HeldKept(v.mem, m, v.live - {q});
    HeldLess(v.mem, v.live, q);
    HeldLess(m, v.live, q);
    ContentsCopied(v.mem, q, v.live[q].size, p, v.live[p].size, n);
    WholeFromLess(Held(v.mem, v.live), Held(m, v.live), q);
  }

  lemma ContentsCopied(m: Memory, q: int, size: nat, p: int, size': nat, n: nat)
    requires n <= size && n <= size'
    ensures Contents(Copy(m, q, p, n), q, size) == Contents(m, p, size')[..n] + Contents(m, q, size)[n..]
  {}

  lemma ContentsWritten(m: Memory, m': Memory, p: int, n: nat, i: nat, value: Byte)
    requires i < n && m'.bytes(p + i) == value && forall y :: y != p + i ==> m'.bytes(y) == m.bytes(y)
    ensures Contents(m', p, n) == Contents(m, p, n)[i := value]
  {}

  lemma WholeFromLess(h: map<int, seq<Byte>>, h': map<int, seq<Byte>>, p: int)
    requires p in h && p in h' && h - {p} == h' - {p}
    ensures h' == h[p := h'[p]]
  {
    forall q | q in h'
      ensures q in h[p := h'[p]] && h'[q] == h[p := h'[p]][q]
    {
      if q != p { assert q in h' - {p}; }
    }
    forall q | q in h[p := h'[p]]
      ensures q in h'
    {
      if q != p { assert q in h - {p}; }
    }
  }

  /** Writing beside the contents of one block. */
  lemma HeldSpoilt(v: View, w: View, tracking: bool, p: int, x: int)
    requires Consistent(v, tracking) == true && w.live == v.live && p in v.live
    requires x < p || p + v.live[p].size <= x
    requires Kept(v.mem, w.mem, v.live - {p}) == true && forall y :: y != x ==> w.mem.bytes(y) == v.mem.bytes(y)
    ensures Held(w.mem, w.live) == Held(v.mem, v.live)
  {
    ViewHeaded(v, tracking);
    HeadedLess(v.mem, v.live, p);
    HeldKept(v.mem, w.mem, v.live - {p});
    HeldLess(v.mem, v.live, p);
    HeldLess(w.mem, v.live, p);
    assert Contents(w.mem, p, v.live[p].size) == Contents(v.mem, p, v.live[p].size);
    WholeFromLess(Held(v.mem, v.live), Held(w.mem, v.live), p);
  }

  /** Both agree as far as both reach. */
  ghost predicate SamePrefix(s: seq<Byte>, s': seq<Byte>) {
    var n := Min(|s|, |s'|);
    s[..n] == s'[..n]
  }

  // ------------------------------------------------------------------- intact memory

  lemma WipedWithin(m: Memory, p: int, k: Block, poison: bool)
    requires BlockOK(m, p, k) == true
    ensures Only(m, Wiped(m, p, k, poison), k.raw.lo, k.raw.hi) == true
  {
    WipedOnly(m, p, k, poison);
  }

  lemma CopyWithin(m: Memory, q: int, k: Block, p: int, n: nat)
    requires BlockOK(m, q, k) == true && 0 < n <= k.size
    ensures Only(m, Copy(m, q, p, n), k.raw.lo, k.raw.hi) == true
  {
    UserInside(m, q, k);
    CopyOnly(m, q, p, n);
    OnlyWiden(m, Copy(m, q, p, n), q, q + n, k.raw.lo, k.raw.hi);
  }

  lemma WriteWithin(m: Memory, p: int, k: Block, i: nat, value: Byte)
    requires BlockOK(m, p, k) == true && i < k.size
    ensures Only(m, Fill(m, p + i, 1, value), k.raw.lo, k.raw.hi) == true
  {
    UserInside(m, p, k);
    FillOnly(m, p + i, 1, value);
    OnlyWiden(m, Fill(m, p + i, 1, value), p + i, p + i + 1, k.raw.lo, k.raw.hi);
  }

  lemma SpoilWithin(m: Memory, p: int, k: Block, x: int, value: Byte)
    requires BlockOK(m, p, k) == true && Spoils(k, p, x)
    ensures Only(m, Fill(m, x, 1, value), k.raw.lo, k.raw.hi) == true
  {
    FillOnly(m, x, 1, value);
    OnlyWiden(m, Fill(m, x, 1, value), x, x + 1, k.raw.lo, k.raw.hi);
  }

  // -------------------------------------------------------------------------- the books

  /** What is known beyond the contents: the pointers ever issued, the freed blocks whose
      headers still say so, the guarded blocks with a changed guard byte, and the reports. */
  datatype Ledger = Ledger(ever: set<int>, retired: Blocks, damaged: set<int>, reports: seq<Report>)

  ghost function Damaged(m: Memory, live: Blocks, guards: bool): set<int> {
    set p | p in live && IsDamaged(m, p, live[p], guards)
  }

  ghost predicate IsDamaged(m: Memory, p: int, k: Block, guards: bool) {
    guards && k.kind.Guarded? && !GuardsIntact(m, p, k.size)
  }

  function AfterIssue(b: Ledger, p: int): Ledger {
    Ledger(b.ever + {p}, map[], b.damaged, b.reports)
  }

  function AfterError(b: Ledger, e: Error, p: int): Ledger {
    b.(reports := b.reports + [Report(e, p)])
  }

  /** A changed guard byte is reported when its block is freed, and not before. */
  ghost function AfterFree(b: Ledger, p: int, k: Block, t: TierState): Ledger {
    Ledger(b.ever, Survivors(t, b.retired[p := k]), b.damaged - {p},
           b.reports + if p in b.damaged then [Report(HeapCorruption, p)] else [])
  }

  /** What the clients hold: the contents and the books. */
  datatype Holding = Holding(heap: map<int, seq<Byte>>, books: Ledger)

  /** From x to y, n more bytes are held, at p. */
  ghost predicate Acquired(x: Holding, y: Holding, p: int, n: nat) {
    && p > 0 && p % 16 == 0 && p !in x.heap && p in y.heap && |y.heap[p]| == n
    && y.heap == x.heap[p := y.heap[p]] && y.books == AfterIssue(x.books, p)
  }

  /** Nothing but an error about p. */
  ghost predicate Failed(x: Holding, y: Holding, e: Error, p: int) {
    y.heap == x.heap && y.books == AfterError(x.books, e, p)
  }

  /** An allocation failed: why, and that nothing else happened; refused says that the
      system has refused a mapping. */
  ghost predicate Missed(x: Holding, y: Holding, e: Error, size: nat, refused: bool) {
    Failed(x, y, e, 0) && if Normal(size) > MAX_REQUEST then e == SizeOverflow else e == OutOfMemory && refused
  }

  /** The block k at p is gone. */
  ghost predicate Dropped(x: Holding, y: Holding, p: int, k: Block, t: TierState) {
    p in x.heap && y.heap == x.heap - {p} && y.books == AfterFree(x.books, p, k, t)
  }

  /** The block k at p is at q now, with n bytes and what fits of its contents. */
  ghost predicate Relocated(x: Holding, y: Holding, p: int, k: Block, t: TierState, q: int, n: nat) {
    && p in x.heap && q > 0 && q !in x.heap && q in y.heap && |y.heap[q]| == n
    && y.heap == (x.heap - {p})[q := y.heap[q]] && SamePrefix(x.heap[p], y.heap[q])
    && y.books == AfterFree(AfterIssue(x.books, q), p, k, t)
  }

  /** The effect of a free: of null none; of a held block that it is gone; of any other
      pointer that an error is reported, which is a double free if the block is retired. */
  ghost predicate Released(p: int, r: Outcome, x: Holding, y: Holding, live: Blocks, tiers: TierState) {
    if p == 0 then r == Ok(0) && y == x
    else if p in x.heap then r == Ok(0) && p in live && Dropped(x, y, p, live[p], tiers)
    else r.Err? && Failed(x, y, r.error, p) && (p in x.books.retired ==> r.error == DoubleFree)
  }

  /** The effect of reallocate, from x to y. */
  ghost predicate Reallocated(p: int, size: nat, r: Outcome, x: Holding, y: Holding, live: Blocks, tiers: TierState, refused: bool) {
    if p == 0 then
      if r.Ok? then Acquired(x, y, r.ptr, Normal(size)) else Missed(x, y, r.error, size, refused)
    else if size == 0 then Released(p, r, x, y, live, tiers)
    else if p !in x.heap then r == Err(InvalidPointer) && Failed(x, y, InvalidPointer, p)
    else if r.Ok? then p in live && Relocated(x, y, p, live[p], tiers, r.ptr, size)
    else Missed(x, y, r.error, size, refused)
  }

  lemma ReallocatedNew(p: int, size: nat, r: Outcome, x: Holding, y: Holding, live: Blocks, tiers: TierState, refused: bool)
    requires p == 0
    requires if r.Ok? then Acquired(x, y, r.ptr, Normal(size)) == true else Missed(x, y, r.error, size, refused) == true
    ensures Reallocated(p, size, r, x, y, live, tiers, refused) == true
  {}

  lemma ReallocatedFree(p: int, size: nat, r: Outcome, x: Holding, y: Holding, live: Blocks, tiers: TierState, refused: bool)
    requires p != 0 && size == 0 && Released(p, r, x, y, live, tiers) == true
    ensures Reallocated(p, size, r, x, y, live, tiers, refused) == true
  {}

  lemma ReallocatedMove(p: int, size: nat, r: Outcome, x: Holding, y: Holding, live: Blocks, tiers: TierState, refused: bool)
    requires p != 0 && size > 0 && x.heap.Keys == live.Keys
    requires p !in live ==> r == Err(InvalidPointer) && Failed(x, y, InvalidPointer, p) == true
    requires p in live && r.Ok? ==> Relocated(x, y, p, live[p], tiers, r.ptr, size) == true
    requires p in live && r.Err? ==> Missed(x, y, r.error, size, refused) == true
    ensures Reallocated(p, size, r, x, y, live, tiers, refused) == true
  {}

  /** The first n bytes of the block at p are now the first of the one at q. */
  ghost predicate CopiedTo(x: Holding, y: Holding, q: int, p: int, n: nat) {
    && p in x.heap && q in x.heap && n <= |x.heap[p]| && n <= |x.heap[q]|
    && y.heap == x.heap[q := x.heap[p][..n] + x.heap[q][n..]] && y.books == x.books
  }

  /** An allocation, a copy of what fits and a free make a move. */
  lemma RelocatedInParts(x: Holding, x1: Holding, x2: Holding, y: Holding, p: int, k: Block, t: TierState, q: int, n: nat)
    requires p in x.heap && Acquired(x, x1, q, n) && Dropped(x2, y, p, k, t)
    requires CopiedTo(x1, x2, q, p, Min(|x.heap[p]|, n))
    ensures Relocated(x, y, p, k, t, q, n)
  {
    var s, s' := x1.heap[p], x1.heap[q];
    assert y.heap[q] == s[..Min(|s|, n)] + s'[Min(|s|, n)..];
  }

  /** A block is damaged if and only if it is guarded and one of the 16 bytes that end 16
      below it, or of the 32 behind it, is not 0xFB. */
  lemma DamagedExactly(m: Memory, live: Blocks, guards: bool, p: int)
    requires p in live
    ensures p in Damaged(m, live, guards) <==>
            guards && live[p].kind.Guarded? &&
            exists x :: (p - 32 <= x < p - 16 || p + live[p].size <= x < p + live[p].size + 32) && m.bytes(x) != 0xFB
  {}

  lemma DamageKept(m: Memory, m': Memory, live: Blocks, guards: bool)
    requires Headed(m, live) == true && Kept(m, m', live) == true
    ensures Damaged(m', live, guards) == Damaged(m, live, guards)
  {
    forall p | p in live
      ensures IsDamaged(m', p, live[p], guards) == IsDamaged(m, p, live[p], guards)
    {
      if live[p].kind.Guarded? { GuardsSame(m, m', p, live[p]); }
    }
  }

  lemma DamageLess(m: Memory, live: Blocks, p: int, guards: bool)
    ensures Damaged(m, live - {p}, guards) == Damaged(m, live, guards) - {p}
  {}

  lemma DamageMore(m: Memory, live: Blocks, p: int, k: Block, guards: bool)
    requires !IsDamaged(m, p, k, guards) && p !in live
    ensures Damaged(m, live[p := k], guards) == Damaged(m, live, guards)
  {}

  lemma DamageIssued(v: View, w: View, tracking: bool, guards: bool, p: int, k: Block)
    requires Consistent(v, tracking) == true && Issued(v, w, p, k) == true && !IsDamaged(w.mem, p, k, guards)
    ensures Damaged(w.mem, w.live, guards) == Damaged(v.mem, v.live, guards)
  {
    ViewHeaded(v, tracking);
    DamageKept(v.mem, w.mem, v.live, guards);
    DamageMore(w.mem, v.live, p, k, guards);
  }

  lemma DamageTaken(v: View, w: View, tracking: bool, guards: bool, p: int)
    requires Consistent(v, tracking) == true && TakenBack(v, w, p) == true
    ensures Damaged(w.mem, w.live, guards) == Damaged(v.mem, v.live, guards) - {p}
  {
    ViewHeaded(v, tracking);
    HeadedLess(v.mem, v.live, p);
    DamageKept(v.mem, w.mem, w.live, guards);
    DamageLess(v.mem, v.live, p, guards);
  }

  /** Writing between the guards of a block does no damage. */
  lemma DamageWritten(v: View, m: Memory, tracking: bool, guards: bool, p: int, lo: int, hi: int)
    requires Consistent(v, tracking) == true && p in v.live && p <= lo && hi <= p + v.live[p].size
    requires Only(v.mem, m, lo, hi) == true && Kept(v.mem, m, v.live - {p}) == true
    ensures Damaged(m, v.live, guards) == Damaged(v.mem, v.live, guards)
  {
    ViewHeaded(v, tracking);
    HeadedLess(v.mem, v.live, p);
    DamageKept(v.mem, m, v.live - {p}, guards);
    DamageLess(v.mem, v.live, p, guards);
    DamageLess(m, v.live, p, guards);
    SameGuards(v.mem, m, p, v.live[p], lo, hi, guards);
    SameBut(Damaged(v.mem, v.live, guards), Damaged(m, v.live, guards), p);
  }

  /** A client's write as a whole: one byte of its block, and nothing of the books. */
  lemma WrittenOnly(v: View, w: View, tracking: bool, guards: bool, p: int, i: nat, value: Byte)
    requires Consistent(v, tracking) == true && w.live == v.live && p in v.live && i < v.live[p].size
    requires Kept(v.mem, w.mem, v.live - {p}) == true && w.mem == Fill(v.mem, p + i, 1, value)
    ensures Held(w.mem, w.live) == Held(v.mem, v.live)[p := Held(v.mem, v.live)[p][i := value]]
    ensures Damaged(w.mem, w.live, guards) == Damaged(v.mem, v.live, guards)
  {
    FillOnly(v.mem, p + i, 1, value);
    HeldWritten(v, w, tracking, p, i, value);
    DamageWritten(v, w.mem, tracking, guards, p, p + i, p + i + 1);
  }

  lemma SameGuards(m: Memory, m': Memory, p: int, k: Block, lo: int, hi: int, guards: bool)
    requires Only(m, m', lo, hi) && p <= lo && hi <= p + k.size
    ensures IsDamaged(m', p, k, guards) == IsDamaged(m, p, k, guards)
  {
    forall x | x < p || p + k.size <= x
      ensures m'.bytes(x) == m.bytes(x)
    {
      assert Same(m, m', x, x + 1);
    }
    assert GuardsIntact(m, p, k.size) ==> GuardsIntact(m', p, k.size);
    assert GuardsIntact(m', p, k.size) ==> GuardsIntact(m, p, k.size);
  }

  lemma SameBut(a: set<int>, b: set<int>, p: int)
    requires a - {p} == b - {p} && (p in a <==> p in b)
    ensures a == b
  {
    forall q | q in a + b
      ensures q in a <==> q in b
    {
      if q != p { assert q in a - {p} <==> q in b - {p}; }
    }
  }

  /** A write of one block, guards included, can only change the damage at that block. */
  lemma DamageOnly(v: View, m: Memory, tracking: bool, guards: bool, p: int)
    requires Consistent(v, tracking) == true && p in v.live && Kept(v.mem, m, v.live - {p}) == true
    ensures var before := Damaged(v.mem, v.live, guards);
            Damaged(m, v.live, guards) == if IsDamaged(m, p, v.live[p], guards) then before + {p} else before - {p}
  {
    ViewHeaded(v, tracking);
    HeadedLess(v.mem, v.live, p);
    DamageKept(v.mem, m, v.live - {p}, guards);
    DamageLess(v.mem, v.live, p, guards);
    DamageLess(m, v.live, p, guards);
    Changed(Damaged(v.mem, v.live, guards), Damaged(m, v.live, guards), p);
  }

  lemma Changed(a: set<int>, b: set<int>, p: int)
    requires a - {p} == b - {p}
    ensures b == if p in b then a + {p} else a - {p}
  {
    forall q | q in a + b && q != p
      ensures q in a <==> q in b
    {
      assert q in a - {p} <==> q in b - {p};
    }
  }

  // ---------------------------------------------------------- from the facade's view

  /** What the clients hold when the facade is as in v. */
  ghost function HoldingOf(v: View, guards: bool, reports: seq<Report>): Holding {
    Holding(Held(v.mem, v.live), Ledger(v.issued, v.retired, Damaged(v.mem, v.live, guards), reports))
  }

  lemma HoldingIssued(v: View, w: View, tracking: bool, guards: bool, reports: seq<Report>, p: int, k: Block)
    requires Consistent(v, tracking) == true && Issued(v, w, p, k) == true && !IsDamaged(w.mem, p, k, guards)
    ensures Acquired(HoldingOf(v, guards, reports), HoldingOf(w, guards, reports), p, k.size) == true
  {
    HeldIssued(v, w, tracking, p, k);
    DamageIssued(v, w, tracking, guards, p, k);
  }

  lemma HoldingCopied(v: View, m: Memory, tracking: bool, guards: bool, reports: seq<Report>, q: int, p: int, n: nat)
    requires Consistent(v, tracking) == true && q in v.live && p in v.live && 0 < n <= v.live[q].size && n <= v.live[p].size
    requires Kept(v.mem, m, v.live - {q}) == true && m == Copy(v.mem, q, p, n)
    ensures CopiedTo(HoldingOf(v, guards, reports), HoldingOf(v.(mem := m), guards, reports), q, p, n) == true
  {
    HeldCopied(v, m, tracking, q, p, n);
    CopyOnly(v.mem, q, p, n);
    DamageWritten(v, m, tracking, guards, q, q, q + n);
  }

  lemma HoldingTaken(v: View, w: View, tracking: bool, guards: bool, reports: seq<Report>, reports': seq<Report>, p: int)
    requires Consistent(v, tracking) == true && TakenBack(v, w, p) == true && p in v.live
    requires reports' == reports + if IsDamaged(v.mem, p, v.live[p], guards) then [Report(HeapCorruption, p)] else []
    ensures Dropped(HoldingOf(v, guards, reports), HoldingOf(w, guards, reports'), p, v.live[p], w.tiers) == true
  {
    HeldTaken(v, w, tracking, p);
    DamageTaken(v, w, tracking, guards, p);
  }

  // ------------------------------------------------------------- what frees leave mapped

  /** From t to t' blocks were only given back: nothing was mapped, and no run was unmapped. */
  ghost predicate OnlyFreed(t: TierState, t': TierState) {
    && (forall r {:trigger Within(t', r)} :: Within(t', r) ==> Within(t, r))
    && (forall r: Raw {:trigger Within(t', r)} {:trigger Within(t, r)} :: r.owner.Small? && Within(t, r) ==> Within(t', r))
  }

  lemma OnlyFreedTwice(t: TierState, t': TierState, t'': TierState)
    requires OnlyFreed(t, t') == true && OnlyFreed(t', t'') == true
    ensures OnlyFreed(t, t'') == true
  {}

  lemma FreedOnly(v: View, tracking: bool, t: TierState, r: Raw, via: Via)
    requires Consistent(v, tracking) == true && HandedBack(v.tiers, t, r, via) == true
    ensures OnlyFreed(v.tiers, t) == true
  {
    OpenView(v, tracking);
    assert Opened(r, 0);
    ReleaseOnlyFrees(v.tiers, r, via);
  }

  lemma ReleaseOnlyFrees(t: TierState, q: Raw, via: Via)
    requires TiersOK(t) && IsRaw(t, q)
    ensures OnlyFreed(t, Release(t, q, via))
  {
    var t' := Release(t, q, via);
    ReleaseRegions(t, q, via);
    forall r | Within(t', r)
      ensures Within(t, r)
    {
      var g :| IsRegion(t', g) && g.owner == r.owner && g.base <= r.lo && r.hi <= g.base + g.size;
    }
    forall r: Raw | r.owner.Small? && Within(t, r)
      ensures Within(t', r)
    {
      var g :| IsRegion(t, g) && g.owner == r.owner && g.base <= r.lo && r.hi <= g.base + g.size;
    }
  }

  ghost predicate FewerRegions(t: TierState, t': TierState) {
    && (forall g :: IsRegion(t', g) ==> IsRegion(t, g))
    && (forall g: Region :: g.owner.Small? && IsRegion(t, g) ==> IsRegion(t', g))
  }

  lemma ReleaseRegions(t: TierState, q: Raw, via: Via)
    requires TiersOK(t) == true && IsRaw(t, q)
    ensures FewerRegions(t, Release(t, q, via)) == true
  {
    match q.owner {
      case Small(c) =>
        SameRuns(t, c, SmallFree(t.small[c], q.lo, via));
      case Medium =>
        MediumRegions(t, q, via);
      case Large =>
        FewerMappings(t, q.lo);
    }
  }

  lemma MediumRegions(t: TierState, q: Raw, via: Via)
    requires TiersOK(t) == true && IsRaw(t, q) && q.owner.Medium?
    ensures FewerRegions(t, Release(t, q, via)) == true
  {
    var b := q.lo - BLOCK_HEADER_SIZE;
    if t.heap.blocks[b].size > 0 {
      SegmentsAfter(t, b);
      FewerSegments(t, SegmentLayout.FreeAt(t.heap, b));
    } else {
      FewerSegments(t, t.heap);
    }
  }

  lemma SegmentsAfter(t: TierState, b: int)
    requires TiersOK(t) && SegmentLayout.IsLive(t.heap, b) && t.heap.blocks[b].size > 0
    ensures forall s :: s in SegmentLayout.FreeAt(t.heap, b).segs ==> s in t.heap.segs
  {
    OpenHeap(t.heap);
    SegmentsShrink(t.heap, b);
  }

  lemma SameRuns(t: TierState, c: nat, s': System)
    requires c < |t.small| && s'.shard.runs == t.small[c].shard.runs
    ensures FewerRegions(t, t.(small := t.small[c := s'])) == true
  {}

  lemma FewerSegments(t: TierState, l': SegmentLayout.Layout)
    requires forall s :: s in l'.segs ==> s in t.heap.segs
    ensures FewerRegions(t, t.(heap := l')) == true
  {}

  lemma FewerMappings(t: TierState, p: int)
    ensures FewerRegions(t, t.(large := t.large - {p})) == true
  {}

  // ------------------------------------------------------------------- runs of frees

  /** Of the blocks that were freed, those are retired whose headers the tiers leave alone
      and whose memory is still mapped. */
  ghost predicate Marked(t: TierState, retired: Blocks, held: Blocks, freed: set<int>) {
    forall p :: p in freed ==>
      && p in held && (p in retired ==> retired[p] == held[p])
      && (p in retired <==> Beside(held[p].raw, p - 8, p) && Within(t, held[p].raw))
  }

  lemma MarkedNext(t: TierState, t': TierState, retired: Blocks, held: Blocks, freed: set<int>, q: int)
    requires Marked(t, retired, held, freed) == true && OnlyFreed(t, t') == true && q in held && q !in freed
    ensures Marked(t', Survivors(t', retired[q := held[q]]), held, freed + {q}) == true
  {}

  ghost function Members(ps: seq<int>): set<int> {
    set p | p in ps
  }

  lemma NextFreed(ps: seq<int>, i: nat)
    requires NoDup(ps) && i < |ps|
    ensures ps[i] in ps && ps[i] !in Members(ps[..i]) && Members(ps[..i + 1]) == Members(ps[..i]) + {ps[i]}
  {
    assert ps[..i + 1] == ps[..i] + [ps[i]];
  }

  /** The header of a small block is out of the tiers' reach, and its run stays. */
  lemma SmallStays(v: View, tracking: bool, p: int)
    requires Consistent(v, tracking) == true && p in v.live && v.live[p].raw.owner.Small?
    ensures Beside(v.live[p].raw, p - 8, p) && Within(v.tiers, v.live[p].raw)
  {
    OpenView(v, tracking);
    OutOfReach(v.mem, p, v.live[p]);
    var g := RawInside(v.tiers, v.live[p].raw);
  }

  lemma SmallAllStay(v: View, tracking: bool, t: TierState, retired: Blocks, freed: set<int>)
    requires Consistent(v, tracking) == true && OnlyFreed(v.tiers, t) == true
    requires Marked(t, retired, v.live, freed) == true
    ensures forall p :: p in freed && v.live[p].raw.owner.Small? ==> p in retired
  {
    forall p | p in freed && v.live[p].raw.owner.Small?
      ensures p in retired
    {
      SmallStays(v, tracking, p);
    }
  }
}
