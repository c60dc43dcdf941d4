/** The allocator as the threads of a program use it: each thread has caches of its own,
    which are made when it first needs one and flushed when it ends. */
module Threads {
  import opened SystemMemory
  import opened SizeClasses
  import opened Folding
  import opened PoolSystem
  import opened Pools
  import opened CacheUse
  import opened Tiers
  import opened Alignment
  import opened RawMemory
  import opened FacadeState
  import opened FacadeSteps
  import opened FacadeViews
  import opened AllocatorImpls
  import opened ClientViews
  import opened CentralStates
  import opened Allocators

  /** The caches are those of thread u, in all classes. */
  ghost predicate Owns(small: seq<System>, bins: object, caches: seq<ClassCache>, u: Tid)
    reads CacheObjects(caches)
  {
    && |caches| == CLASS_COUNT == |small| && AllApart(caches)
    && forall c :: 0 <= c < CLASS_COUNT ==> OwnsOne(small[c], bins, caches[c], u)
  }

  ghost predicate OwnsOne(s: System, bins: object, cache: ClassCache, u: Tid)
    reads cache, cache.slots
  {
    && cache.Valid() && (cache.slots as object) != bins
    && u in s.caches && cache.View() == s.caches[u]
  }

  lemma OwnsStill(small: seq<System>, small': seq<System>, used: set<Tid>, bins: object, caches: seq<ClassCache>, u: Tid)
    requires Owns(small, bins, caches, u) && OthersKeep(small, small', used) && u !in used
    ensures Owns(small', bins, caches, u)
  {
    assert SameCaches(small, small', u);
    forall c | 0 <= c < CLASS_COUNT
      ensures OwnsOne(small'[c], bins, caches[c], u)
    {
      assert OwnsOne(small[c], bins, caches[c], u) && SameCache(small[c], small'[c], u);
    }
  }

  lemma NoneStill(central: CentralState, small: seq<System>, used: set<Tid>, u: Tid)
    requires OthersKeep(small, central.small, used) && u !in used
    requires forall c :: 0 <= c < |small| ==> u !in small[c].caches
    ensures central.NoCaches(u)
  {
    assert SameCaches(small, central.small, u);
    forall c | 0 <= c < |central.small|
      ensures u !in central.small[c].caches
    {
      assert SameCache(small[c], central.small[c], u);
    }
  }

  lemma OwnsAsCaches(central: CentralState, caches: seq<ClassCache>, t: Tid)
    requires |caches| == CLASS_COUNT
    ensures central.Caches(caches, t) && |central.small| == CLASS_COUNT <==>
            Owns(central.small, central.segments.bins, caches, t)
  {
    if Owns(central.small, central.segments.bins, caches, t) {
      forall c | 0 <= c < CLASS_COUNT
        ensures central.Holds(c, caches[c], t)
      {
        assert OwnsOne(central.small[c], central.segments.bins, caches[c], t);
      }
    }
    if central.Caches(caches, t) && |central.small| == CLASS_COUNT {
      forall c | 0 <= c < CLASS_COUNT
        ensures OwnsOne(central.small[c], central.segments.bins, caches[c], t)
      {
        assert central.Holds(c, caches[c], t);
      }
    }
  }

  /** With the tiers' state small, all threads but some own the caches in their slots, which
      consist of objects in repr, and threads without a slot have none. */
  ghost predicate AllEquipped(small: seq<System>, bins: object, slots: map<Tid, seq<ClassCache>>, repr: set<object>, but: set<Tid>)
    reads repr
  {
    && (forall u :: u in slots && u !in but ==> CacheObjects(slots[u]) <= repr && Owns(small, bins, slots[u], u))
    && (forall u, c :: u !in slots && u !in but && 0 <= c < |small| ==> u !in small[c].caches)
  }

  /** No cache is in two slots. */
  ghost predicate Apart(slots: map<Tid, seq<ClassCache>>) {
    forall t, u :: t in slots && u in slots && t != u ==> CacheObjects(slots[t]) !! CacheObjects(slots[u])
  }

  lemma SlotAdded(small: seq<System>, bins: object, slots: map<Tid, seq<ClassCache>>, repr: set<object>,
                  t: Tid, caches: seq<ClassCache>)
    requires AllEquipped(small, bins, slots, repr, {}) && Apart(slots) && t !in slots
    requires forall u :: u in slots ==> CacheObjects(caches) !! CacheObjects(slots[u])
    ensures AllEquipped(small, bins, slots[t := caches], repr + CacheObjects(caches), {t}) == true
    ensures Apart(slots[t := caches]) == true
  {}

  /** At most the slot of t is new, kept folded where it is passed along. */
  ghost predicate OneSlot(slots: map<Tid, seq<ClassCache>>, slots': map<Tid, seq<ClassCache>>, t: Tid, caching: bool) {
    forall key {:trigger Opened(slots', key)} :: Opened(slots', key) ==>
      slots' == slots || (caching && t in slots' && slots' == slots[t := slots'[t]])
  }

  lemma OpenSlots(slots: map<Tid, seq<ClassCache>>, slots': map<Tid, seq<ClassCache>>, t: Tid, caching: bool)
    requires OneSlot(slots, slots', t, caching) == true
    ensures slots' == slots || (caching && t in slots' && slots' == slots[t := slots'[t]])
  {
    assert Opened(slots', 0);
  }

  lemma OneSlotTwice(slots: map<Tid, seq<ClassCache>>, mid: map<Tid, seq<ClassCache>>, slots': map<Tid, seq<ClassCache>>, t: Tid, caching: bool)
    requires OneSlot(slots, mid, t, caching) == true && OneSlot(mid, slots', t, caching) == true
    ensures OneSlot(slots, slots', t, caching) == true && (t in mid ==> t in slots')
  {
    OpenSlots(slots, mid, t, caching);
    OpenSlots(mid, slots', t, caching);
  }

  /** The calls of the public interface that change something. */
  datatype Call =
    | Allocate(size: nat)
    | AlignedAllocate(alignment: nat, size: nat)
    | Deallocate(p: int)
    | Reallocate(p: int, size: nat)

  /** What matters for a call: what the clients hold, the blocks behind it, and how often the
      system has refused a mapping. */
  datatype Moment = Moment(holding: Holding, live: Blocks, refusals: nat)

  /** The effect of a call, from m to n; tiers are the tiers after it. It is kept folded where
      it is passed along. */
  ghost predicate Did(call: Call, r: Outcome, m: Moment, n: Moment, tiers: TierState) {
    forall key {:trigger Opened(n, key)} :: Opened(n, key) ==> Effect(call, r, m, n, tiers)
  }

  ghost predicate Effect(call: Call, r: Outcome, m: Moment, n: Moment, tiers: TierState) {
    (var x, y, refused := m.holding, n.holding, n.refusals > m.refusals;
     match call
     case Allocate(size) =>
       if r.Ok? then
         Acquired(x, y, r.ptr, Normal(size)) && r.ptr in n.live && n.live == m.live[r.ptr := n.live[r.ptr]]
       else Missed(x, y, r.error, size, refused)
     case AlignedAllocate(alignment, size) =>
       if !GoodAlignment(alignment) then r == Err(InvalidAlignment) && Failed(x, y, InvalidAlignment, 0)
       else if r.Ok? then Acquired(x, y, r.ptr, Normal(size)) && AlignedTo(r.ptr, alignment) && r.ptr in n.live
       else Missed(x, y, r.error, size, refused)
     case Deallocate(p) =>
       Released(p, r, x, y, m.live, tiers)
     case Reallocate(p, size) =>
       Reallocated(p, size, r, x, y, m.live, tiers, refused)) == true
  }

  lemma AllocateDid(size: nat, r: Outcome, m: Moment, n: Moment, tiers: TierState, refused: bool)
    requires refused == (n.refusals > m.refusals)
    requires if r.Ok? then
               Acquired(m.holding, n.holding, r.ptr, Normal(size)) == true && r.ptr in n.live && n.live == m.live[r.ptr := n.live[r.ptr]]
             else Missed(m.holding, n.holding, r.error, size, refused) == true
    ensures Did(Allocate(size), r, m, n, tiers) == true
  {}

  /** An allocation, a copy and a free make a move. */
  lemma MoveDid(p: int, size: nat, r: Outcome, freed: Outcome, m: Moment, m1: Moment, m2: Moment, n: Moment,
                t1: TierState, tiers: TierState)
    requires p in m.live && p in m.holding.heap && p != 0 && size > 0 && r.Ok?
    requires Did(Allocate(size), r, m, m1, t1) == true && Did(Deallocate(p), freed, m2, n, tiers) == true
    requires CopiedTo(m1.holding, m2.holding, r.ptr, p, Min(|m.holding.heap[p]|, size)) == true && m2.live == m1.live
    ensures Did(Reallocate(p, size), r, m, n, tiers) == true
  {
    assert Opened(m1, 0) && Opened(n, 0);
    RelocatedInParts(m.holding, m1.holding, m2.holding, n.holding, p, m.live[p], tiers, r.ptr, size);
  }

  /** What is needed of the allocation of a move for the rest of it. */
  lemma MoveHalfway(p: int, size: nat, r: Outcome, m: Moment, n: Moment, tiers: TierState)
    requires Did(Allocate(size), r, m, n, tiers) == true && size > 0 && p in m.live && p in m.holding.heap
    ensures r.Ok? ==>
              && r.ptr in n.holding.heap && p in n.holding.heap && n.holding.heap[p] == m.holding.heap[p]
              && |n.holding.heap[r.ptr]| == size && p in n.live && n.live[p] == m.live[p]
    ensures r.Err? ==> Did(Reallocate(p, size), r, m, n, tiers) == true || p == 0
  {
    assert Opened(n, 0);
  }

  /** A call that does not reach the small tier has no part in it. */
  lemma NoSmallPart(call: Call, r: Outcome, m: Moment, n: Moment, tiers: TierState, guards: bool)
    requires Did(call, r, m, n, tiers) == true && !Reaching(call, m.live, guards) && !call.Reallocate?
    ensures !SmallPart(PartOf(call, r, m.live, n.live, guards))
  {
    assert Opened(n, 0);
  }

  /** deallocate, or what amounts to it. */
  predicate IsFree(call: Call) {
    call.Deallocate? || (call.Reallocate? && call.p != 0 && call.size == 0)
  }

  /** The pointer that a call is about, or null. */
  function Subject(call: Call): int {
    match call
    case Allocate(_) => 0
    case AlignedAllocate(_, _) => 0
    case Deallocate(p) => p
    case Reallocate(p, _) => p
  }

  /** What a call asks of the small tier: a raw block for n bytes, which it gets at b; to take
      back the one at b; or nothing. */
  datatype Part = Draw(n: nat, b: int) | Undraw(owner: Owner, b: int) | Rest

  ghost function NewPart(size: nat, r: Outcome, guards: bool): Part {
    if r.Ok? then Draw((if size == 0 then 1 else size) + (if guards then 64 else 0), r.ptr - (if guards then 48 else 16))
    else Rest
  }

  ghost function PartOf(call: Call, r: Outcome, live: Blocks, live': Blocks, guards: bool): Part {
    match call
    case Allocate(size) => NewPart(size, r, guards)
    case AlignedAllocate(alignment, size) =>
      if r.Ok? && r.ptr in live' then
        Draw((if size == 0 then 1 else size) + (if alignment > 16 then alignment else if guards then 64 else 0),
             live'[r.ptr].raw.lo)
      else Rest
    case Deallocate(p) =>
      if p in live then Undraw(live[p].raw.owner, live[p].raw.lo) else Rest
    case Reallocate(p, size) =>
      if p == 0 || size > 0 then NewPart(size, r, guards)
      else if p in live then Undraw(live[p].raw.owner, live[p].raw.lo) else Rest
  }

  /** The caches and shards show it; kept folded where it is passed along. */
  ghost predicate Made(part: Part, small: seq<System>, small': seq<System>, via: Via) {
    forall key {:trigger Opened(small', key)} :: Opened(small', key) ==> MadeOf(part, small, small', via)
  }

  ghost predicate MadeOf(part: Part, small: seq<System>, small': seq<System>, via: Via) {
    match part
    case Draw(n, b) => Drew(small, small', via, n, b) == true
    case Undraw(owner, b) => GaveBack(small, small', via, owner, b) == true
    case Rest => AllIdle(small, small') == true
  }

  lemma OpenMade(part: Part, small: seq<System>, small': seq<System>, via: Via)
    requires Made(part, small, small', via) == true
    ensures MadeOf(part, small, small', via)
  {
    assert Opened(small', 0);
  }

  lemma MadeAfterIdle(part: Part, small: seq<System>, mid: seq<System>, small': seq<System>, via: Via)
    requires AllIdle(small, mid) == true && Made(part, mid, small', via) == true
    ensures Made(part, small, small', via) == true
  {
    OpenMade(part, mid, small', via);
    match part {
      case Draw(n, b) => IdleThenDrew(small, mid, small', via, n, b);
      case Undraw(owner, b) => IdleThenGaveBack(small, mid, small', via, owner, b);
      case Rest => IdleTwice(small, mid, small');
    }
  }

  lemma OpenDraw(n: nat, b: int, small: seq<System>, small': seq<System>, via: Via)
    requires Made(Draw(n, b), small, small', via) == true
    ensures Drew(small, small', via, n, b) == true
  {
    OpenMade(Draw(n, b), small, small', via);
  }

  lemma OpenUndraw(owner: Owner, b: int, small: seq<System>, small': seq<System>, via: Via)
    requires Made(Undraw(owner, b), small, small', via) == true
    ensures GaveBack(small, small', via, owner, b) == true
  {
    OpenMade(Undraw(owner, b), small, small', via);
  }

  lemma DrewNew(call: Call, r: Outcome, m: Moment, n: Moment, guards: bool, small: seq<System>, small': seq<System>, via: Via)
    requires (call.Allocate? || (call.Reallocate? && (call.p == 0 || call.size > 0))) && r.Ok?
    requires Made(PartOf(call, r, m.live, n.live, guards), small, small', via) == true
    ensures Drew(small, small', via, (if call.size == 0 then 1 else call.size) + (if guards then 64 else 0),
                 r.ptr - (if guards then 48 else 16)) == true
  {
    NewIsDraw(call, r, m.live, n.live, guards);
    OpenDraw((if call.size == 0 then 1 else call.size) + (if guards then 64 else 0), r.ptr - (if guards then 48 else 16),
             small, small', via);
  }

  lemma NewIsDraw(call: Call, r: Outcome, live: Blocks, live': Blocks, guards: bool)
    requires (call.Allocate? || (call.Reallocate? && (call.p == 0 || call.size > 0))) && r.Ok?
    ensures PartOf(call, r, live, live', guards) ==
            Draw((if call.size == 0 then 1 else call.size) + (if guards then 64 else 0), r.ptr - (if guards then 48 else 16))
  {}

  lemma DrewAligned(call: Call, r: Outcome, m: Moment, n: Moment, tiers: TierState, guards: bool,
                    small: seq<System>, small': seq<System>, via: Via)
    requires Did(call, r, m, n, tiers) == true && call.AlignedAllocate? && r.Ok?
    requires Made(PartOf(call, r, m.live, n.live, guards), small, small', via) == true
    ensures r.ptr in n.live && GoodAlignment(call.alignment)
    ensures Drew(small, small', via,
                 (if call.size == 0 then 1 else call.size) +
                 (if call.alignment > 16 then call.alignment else if guards then 64 else 0),
                 n.live[r.ptr].raw.lo) == true
  {
    assert Opened(n, 0);
    OpenDraw((if call.size == 0 then 1 else call.size) + (if call.alignment > 16 then call.alignment else if guards then 64 else 0),
             n.live[r.ptr].raw.lo, small, small', via);
  }

  lemma GaveBackFreed(call: Call, r: Outcome, m: Moment, n: Moment, guards: bool, small: seq<System>, small': seq<System>, via: Via)
    requires IsFree(call) && Subject(call) in m.live
    requires Made(PartOf(call, r, m.live, n.live, guards), small, small', via) == true
    ensures GaveBack(small, small', via, m.live[Subject(call)].raw.owner, m.live[Subject(call)].raw.lo) == true
  {
    OpenUndraw(m.live[Subject(call)].raw.owner, m.live[Subject(call)].raw.lo, small, small', via);
  }

  /** A call that fails has no part in the small tier. */
  lemma ErrorIsRest(call: Call, r: Outcome, m: Moment, n: Moment, tiers: TierState, guards: bool)
    requires Did(call, r, m, n, tiers) == true && r.Err? && m.holding.heap.Keys == m.live.Keys
    ensures PartOf(call, r, m.live, n.live, guards) == Rest
  {
    assert Opened(n, 0);
  }

  /** What was made, call by call. */
  lemma Account(call: Call, r: Outcome, m: Moment, n: Moment, tiers: TierState, guards: bool,
                small: seq<System>, small': seq<System>, via: Via)
    requires Did(call, r, m, n, tiers) == true && m.holding.heap.Keys == m.live.Keys
    requires Made(PartOf(call, r, m.live, n.live, guards), small, small', via) == true
    ensures (call.Allocate? || (call.Reallocate? && (call.p == 0 || call.size > 0))) && r.Ok? ==>
              Drew(small, small', via, (if call.size == 0 then 1 else call.size) + (if guards then 64 else 0),
                   r.ptr - (if guards then 48 else 16)) == true
    ensures call.AlignedAllocate? && r.Ok? ==>
              && r.ptr in n.live && GoodAlignment(call.alignment)
              && Drew(small, small', via,
                      (if call.size == 0 then 1 else call.size) +
                      (if call.alignment > 16 then call.alignment else if guards then 64 else 0),
                      n.live[r.ptr].raw.lo) == true
    ensures IsFree(call) && Subject(call) in m.live ==>
              GaveBack(small, small', via, m.live[Subject(call)].raw.owner, m.live[Subject(call)].raw.lo) == true
    ensures r.Err? ==> AllIdle(small, small') == true
  {
    if r.Err? {
      ErrorIsRest(call, r, m, n, tiers, guards);
      OpenMade(Rest, small, small', via);
    }
    if IsFree(call) {
      if Subject(call) in m.live { GaveBackFreed(call, r, m, n, guards, small, small', via); }
    } else if r.Ok? && call.AlignedAllocate? {
      DrewAligned(call, r, m, n, tiers, guards, small, small', via);
    } else if r.Ok? && (call.Allocate? || call.Reallocate?) {
      DrewNew(call, r, m, n, guards, small, small', via);
    }
  }

  lemma AllocateMade(size: nat, r: Outcome, live: Blocks, live': Blocks, guards: bool,
                     small: seq<System>, small': seq<System>, via: Via)
    requires if r.Ok? then
               Drew(small, small', via, (if size == 0 then 1 else size) + (if guards then 64 else 0),
                    r.ptr - (if guards then 48 else 16)) == true
             else AllIdle(small, small') == true
    ensures Made(PartOf(Allocate(size), r, live, live', guards), small, small', via) == true
  {}

  lemma AlignedMade(alignment: nat, size: nat, r: Outcome, live: Blocks, live': Blocks, guards: bool,
                    small: seq<System>, small': seq<System>, via: Via)
    requires if r.Ok? then
               && r.ptr in live'
               && Drew(small, small', via,
                       (if size == 0 then 1 else size) + (if alignment > 16 then alignment else if guards then 64 else 0),
                       live'[r.ptr].raw.lo) == true
             else AllIdle(small, small') == true
    ensures Made(PartOf(AlignedAllocate(alignment, size), r, live, live', guards), small, small', via) == true
  {}

  ghost predicate SmallPart(part: Part) {
    match part
    case Draw(n, _) => n <= 4096
    case Undraw(owner, _) => owner.Small?
    case Rest => false
  }

  /** If a part has nothing to do with a small block, it makes no difference whether there
      are caches. */
  lemma MadeAnyWay(part: Part, small: seq<System>, small': seq<System>, via: Via, via': Via)
    requires Made(part, small, small', via) == true && !SmallPart(part)
    ensures Made(part, small, small', via') == true
  {
    assert Opened(small', 0);
  }

  /** What the registry and the header below it say of a pointer that is not held, and the
      error for it. */
  datatype Trace = Trace(tracking: bool, ever: bool, tier: nat, state: nat)

  ghost predicate Blames(r: Outcome, trace: Trace) {
    if trace.tracking then r == Err(if trace.ever then DoubleFree else InvalidPointer)
    else r == Err(if 0x51 <= trace.tier <= 0x55 && trace.state == 0xF4EE then DoubleFree else InvalidPointer)
  }

  /** The call has to do with a small block. */
  ghost predicate Reaching(call: Call, live: Blocks, guards: bool) {
    match call
    case Allocate(size) => (if size == 0 then 1 else size) + (if guards then 64 else 0) <= 4096
    case AlignedAllocate(alignment, size) =>
      && GoodAlignment(alignment)
      && (if size == 0 then 1 else size) + (if alignment > 16 then alignment else if guards then 64 else 0) <= 4096
    case Deallocate(p) => p in live && live[p].raw.owner.Small?
    case Reallocate(p, size) =>
      if p == 0 || size > 0 then
        (p == 0 || p in live) && (if size == 0 then 1 else size) + (if guards then 64 else 0) <= 4096
      else p in live && live[p].raw.owner.Small?
  }

  class ThreadedAllocator {
    const base: Allocator
    /** Whether threads have caches at all. */
    const caching: bool
    /** The caches that each thread has made. */
    var slots: map<Tid, seq<ClassCache>>
    /** What the caches consist of. */
    ghost var repr: set<object>

    /** All objects of the allocator but the caches. */
    ghost function Objects(): set<object> {
      {base.impl, base.impl.debug, base.central, base.central.os, base.central.segments, base.central.segments.bins,
       base.central.large} + base.central.Objects()
    }

    ghost predicate Valid()
      reads this, Objects(), repr
    {
      forall key {:trigger Opened(this, key)} :: Opened(this, key) ==> Sound()
    }

    ghost predicate Sound()
      reads this, Objects(), repr
    {
      (base.Valid() && Equipped(base.central.small, {}) && Apart(slots) && (caching || slots == map[])) == true
    }

    lemma Open()
      requires Valid()
      ensures Sound()
    {
      assert Opened(this, 0);
    }

    ghost predicate Equipped(small: seq<System>, but: set<Tid>)
      reads this, repr
    {
      AllEquipped(small, base.central.segments.bins, slots, repr, but)
    }

    /** What the clients hold. */
    ghost function Seen(): Holding
      reads base.impl
    {
      base.Seen()
    }

    ghost function Now(): Moment
      reads base.impl, base.central.os
    {
      Moment(Seen(), base.impl.live, base.central.os.refusals)
    }

    /** The way between thread t and the small tier. */
    ghost function Through(t: Tid): Via {
      if caching then ViaCache(t) else ViaPool
    }

    ghost function TraceOf(p: int): Trace
      reads base.impl
    {
      Trace(base.impl.config.tracking, p in base.impl.issued, TierAt(base.impl.mem, p - 16), StateAt(base.impl.mem, p - 16))
    }

    constructor (config: Config, caching: bool, os: Os, mem: Memory)
      requires os.Valid()
      ensures Valid() && Seen() == Holding(map[], Ledger({}, map[], {}, []))
      ensures base.impl.config == config && base.central.os == os && this.caching == caching
      ensures fresh(Objects() - {os}) && repr == {}
    {
      this.caching := caching;
      slots, repr := map[], {};
      base := new Allocator(config, os, mem);
      new;
      forall u, c | 0 <= c < |base.central.small|
        ensures u !in base.central.small[c].caches
      {
        assert base.central.NoCaches(u);
      }
    }

    /** This object is none of those it uses. */
    lemma Foreign(caches: seq<ClassCache>)
      ensures (this as object) !in Objects() && (this as object) !in CacheObjects(caches)
    {}

    /** A cache is none of the other objects. */
    lemma CachesBeside(u: Tid)
      requires u in slots && Owns(base.central.small, base.central.segments.bins, slots[u], u)
      ensures CacheObjects(slots[u]) !! Objects()
    {
      forall c | 0 <= c < CLASS_COUNT
        ensures OwnsOne(base.central.small[c], base.central.segments.bins, slots[u][c], u)
      {}
    }

    /** The invariant after a step of the base that used the caches of t, or none. */
    lemma Resume(small: seq<System>, used: set<Tid>, caches: seq<ClassCache>, t: Tid)
      requires base.Valid() == true && Apart(slots) == true && (caching || slots == map[])
      requires Equipped(small, used) == true && OthersKeep(small, base.central.small, used) == true && used <= {t}
      requires t in used ==>
                 if t in slots then
                   && slots[t] == caches && |caches| == CLASS_COUNT && CacheObjects(caches) <= repr
                   && base.central.Caches(caches, t)
                 else base.central.NoCaches(t)
      ensures Valid()
    {
      forall u | u in slots
        ensures CacheObjects(slots[u]) <= repr && Owns(base.central.small, base.central.segments.bins, slots[u], u)
      {
        if u in used {
          OwnsAsCaches(base.central, caches, t);
        } else {
          OwnsStill(small, base.central.small, used, base.central.segments.bins, slots[u], u);
        }
      }
      forall u | u !in slots
        ensures base.central.NoCaches(u)
      {
        if u !in used { NoneStill(base.central, small, used, u); }
      }
    }

    /** threadCache: the caches of thread t, made if there are none yet; or none at all. */
    method ThreadCache(t: Tid) returns (caches: seq<ClassCache>)
      requires Valid()
      modifies this, base.impl, base.central
      ensures Valid()
      ensures caching ==> t in slots && slots == old(slots)[t := slots[t]]
      ensures caches == if caching then slots[t] else []
      ensures (!caching ==> slots == old(slots)) && (caching <==> |caches| > 0)
      ensures fresh(repr - old(repr)) && CacheObjects(caches) <= repr && Ready(caches, t)
      ensures Now() == old(Now()) && AllIdle(old(base.central.small), base.central.small) == true
    {
      Open();
      SameIsIdle(base.central.small);
      if !caching {
        return [];
      }
      if t !in slots {
        NewCaches(t);
        Open();
      }
      caches := slots[t];
      OwnsAsCaches(base.central, caches, t);
    }

    method NewCaches(t: Tid)
      requires Valid() && caching && t !in slots
      modifies this, base.impl, base.central
      ensures Valid() && t in slots && slots == old(slots)[t := slots[t]] && fresh(repr - old(repr))
      ensures Now() == old(Now()) && AllIdle(old(base.central.small), base.central.small) == true
    {
      Open();
      ghost var small := base.central.small;
      Foreign([]);
      var caches := MakeCaches(t);
      FillSlot(t, caches, small);
    }

    method FillSlot(t: Tid, caches: seq<ClassCache>, ghost small: seq<System>)
      requires base.Valid() == true && base.central.Caches(caches, t) == true && |caches| == CLASS_COUNT && caching
      requires OthersKeep(small, base.central.small, {t}) == true && Equipped(small, {}) == true && Apart(slots) == true
      requires t !in slots && forall u :: u in slots ==> CacheObjects(caches) !! CacheObjects(slots[u])
      modifies this
      ensures Valid() && slots == old(slots)[t := caches] && repr == old(repr) + CacheObjects(caches)
    {
      Foreign(caches);
      SlotAdded(small, base.central.segments.bins, slots, repr, t, caches);
      slots, repr := slots[t := caches], repr + CacheObjects(caches);
      Resume(small, {t}, caches, t);
    }

    /** The caches of a thread, not yet in its slot. */
    method MakeCaches(t: Tid) returns (caches: seq<ClassCache>)
      requires Valid() && t !in slots
      modifies base.impl, base.central
      ensures base.Valid() == true && base.central.Caches(caches, t) && |caches| == CLASS_COUNT
      ensures OthersKeep(old(base.central.small), base.central.small, {t}) == true
      ensures Equipped(old(base.central.small), {}) == true && fresh(CacheObjects(caches))
      ensures forall u :: u in slots ==> CacheObjects(caches) !! CacheObjects(slots[u])
      ensures Now() == old(Now()) && AllIdle(old(base.central.small), base.central.small) == true
    {
      Open();
      ghost var small := base.central.small;
      OthersBeside([], t);
      Foreign([]);
      assert base.central.NoCaches(t);
      caches := base.ThreadStarts(t);
      forall u | u in slots
        ensures CacheObjects(slots[u]) <= repr && Owns(small, base.central.segments.bins, slots[u], u)
        ensures CacheObjects(caches) !! CacheObjects(slots[u])
      {
        assert old(Owns(base.central.small, base.central.segments.bins, slots[u], u));
      }
    }

    /** The caches are those that thread t uses, or none. */
    ghost predicate Ready(caches: seq<ClassCache>, t: Tid)
      reads this, base.central, CacheObjects(caches)
    {
      && base.central.Caches(caches, t)
      && (|caches| == 0 || (t in slots && slots[t] == caches && |caches| == CLASS_COUNT && CacheObjects(caches) <= repr))
    }

    /** What the other threads own is out of reach of a call that uses these caches. */
    lemma OthersBeside(caches: seq<ClassCache>, t: Tid)
      requires Valid() && Ready(caches, t)
      ensures forall u :: u in slots && u !in Users(caches, t) ==> CacheObjects(slots[u]) !! Objects() + CacheObjects(caches)
    {
      Open();
      forall u | u in slots && u !in Users(caches, t)
        ensures CacheObjects(slots[u]) !! Objects() + CacheObjects(caches)
      {
        CachesBeside(u);
        if |caches| > 0 { assert CacheObjects(slots[t]) !! CacheObjects(slots[u]); }
      }
    }

    // --------------------------------------------------------------------------- calls

    /** The call on the base, with the caches that were found for it. */
    method DoBase(call: Call, caches: seq<ClassCache>, t: Tid) returns (r: Outcome)
      requires base.Valid() && base.central.Caches(caches, t) && base.impl.Readable(Subject(call)) && !call.Reallocate?
      modifies Objects(), CacheObjects(caches)
      ensures base.Valid() == true && base.central.Caches(caches, t) == true
      ensures OthersKeep(old(base.central.small), base.central.small, Users(caches, t)) == true
      ensures Did(call, r, old(Now()), Now(), base.impl.tiers) == true
      ensures call.Deallocate? && call.p != 0 && call.p !in old(base.impl.live) ==> Blames(r, old(TraceOf(call.p))) == true
      ensures Made(PartOf(call, r, old(base.impl.live), base.impl.live, base.impl.config.guards),
                   old(base.central.small), base.central.small, Way(caches, t)) == true
    {
      match call {
        case Allocate(size) =>
          r := BaseAllocate(size, caches, t);
        case AlignedAllocate(alignment, size) =>
          r := BaseAligned(alignment, size, caches, t);
        case Deallocate(p) =>
          r := BaseDeallocate(p, caches, t);
      }
    }

    method BaseAllocate(size: nat, caches: seq<ClassCache>, t: Tid) returns (r: Outcome)
      requires base.Valid() && base.central.Caches(caches, t)
      modifies Objects(), CacheObjects(caches)
      ensures base.Valid() == true && base.central.Caches(caches, t) == true
      ensures OthersKeep(old(base.central.small), base.central.small, Users(caches, t)) == true
      ensures Did(Allocate(size), r, old(Now()), Now(), base.impl.tiers) == true
      ensures Made(PartOf(Allocate(size), r, old(base.impl.live), base.impl.live, base.impl.config.guards),
                   old(base.central.small), base.central.small, Way(caches, t)) == true
    {
      ghost var m, small, refusals := Now(), base.central.small, base.central.os.refusals;
      SameIsIdle(base.central.small);
      r := base.Allocate(size, caches, t);
      AllocateDid(size, r, m, Now(), base.impl.tiers, base.central.os.refusals > refusals);
      AllocateMade(size, r, m.live, base.impl.live, base.impl.config.guards, small, base.central.small, Way(caches, t));
    }

    method BaseAligned(alignment: nat, size: nat, caches: seq<ClassCache>, t: Tid) returns (r: Outcome)
      requires base.Valid() && base.central.Caches(caches, t)
      modifies Objects(), CacheObjects(caches)
      ensures base.Valid() == true && base.central.Caches(caches, t) == true
      ensures OthersKeep(old(base.central.small), base.central.small, Users(caches, t)) == true
      ensures Did(AlignedAllocate(alignment, size), r, old(Now()), Now(), base.impl.tiers) == true
      ensures Made(PartOf(AlignedAllocate(alignment, size), r, old(base.impl.live), base.impl.live, base.impl.config.guards),
                   old(base.central.small), base.central.small, Way(caches, t)) == true
    {
      ghost var m, small := Now(), base.central.small;
      SameIsIdle(base.central.small);
      r := base.AlignedAllocate(alignment, size, caches, t);
      AlignedMade(alignment, size, r, m.live, base.impl.live, base.impl.config.guards, small, base.central.small, Way(caches, t));
    }

    method BaseDeallocate(p: int, caches: seq<ClassCache>, t: Tid) returns (r: Outcome)
      requires base.Valid() && base.central.Caches(caches, t) && base.impl.Readable(p)
      modifies Objects(), CacheObjects(caches)
      ensures base.Valid() == true && base.central.Caches(caches, t) == true
      ensures OthersKeep(old(base.central.small), base.central.small, Users(caches, t)) == true
      ensures Did(Deallocate(p), r, old(Now()), Now(), base.impl.tiers) == true
      ensures p != 0 && p !in old(base.impl.live) ==> Blames(r, old(TraceOf(p))) == true
      ensures Made(PartOf(Deallocate(p), r, old(base.impl.live), base.impl.live, base.impl.config.guards),
                   old(base.central.small), base.central.small, Way(caches, t)) == true
    {
      SameIsIdle(base.central.small);
      r := base.Deallocate(p, caches, t);
    }

    /** The same, in a state in which other threads have caches. */
    method DoWith(call: Call, caches: seq<ClassCache>, t: Tid) returns (r: Outcome)
      requires Valid() && Ready(caches, t) && base.impl.Readable(Subject(call)) && !call.Reallocate?
      modifies Objects(), CacheObjects(caches)
      ensures Valid() && slots == old(slots) && repr == old(repr)
      ensures Did(call, r, old(Now()), Now(), base.impl.tiers) == true
      ensures call.Deallocate? && call.p != 0 && call.p !in old(base.impl.live) ==> Blames(r, old(TraceOf(call.p))) == true
      ensures Made(PartOf(call, r, old(base.impl.live), base.impl.live, base.impl.config.guards),
                   old(base.central.small), base.central.small, Way(caches, t)) == true
    {
      Open();
      ghost var small := base.central.small;
      OthersBeside(caches, t);
      Foreign(caches);
      r := DoBase(call, caches, t);
      forall u | u in slots && u !in Users(caches, t)
        ensures CacheObjects(slots[u]) <= repr && Owns(small, base.central.segments.bins, slots[u], u)
      {
        assert old(Owns(base.central.small, base.central.segments.bins, slots[u], u));
      }
      Resume(small, Users(caches, t), caches, t);
    }

    /** Whether p is a block of the small tier. */
    method FreesSmall(p: int) returns (small: bool)
      requires base.Valid() && base.impl.Readable(p)
      ensures small <==> p in base.impl.live && base.impl.live[p].raw.owner.Small?
    {
      small := base.impl.Accepts(p);
      if small {
        var block, owner := base.impl.Locate(p);
        small := owner.Small?;
      }
    }

    /** The call has to do with a small block, so that the thread's caches are looked up. */
    ghost predicate Reaches(call: Call)
      reads base.impl
    {
      Reaching(call, base.impl.live, base.impl.config.guards)
    }

    method NeedsCaches(call: Call) returns (needed: bool)
      requires base.Valid() && base.impl.Readable(Subject(call)) && !call.Reallocate?
      ensures needed <==> Reaches(call)
    {
      match call {
        case Allocate(size) =>
          needed := base.impl.Asked(size) <= SMALL_MAX;
        case AlignedAllocate(alignment, size) =>
          needed := GoodAlignment(alignment) && base.impl.AskedAligned(alignment, size) <= SMALL_MAX;
        case Deallocate(p) =>
          needed := FreesSmall(p);
      }
    }

    /** A call that has one part, by any thread. */
    method DoPart(call: Call, t: Tid) returns (r: Outcome)
      requires Valid() && base.impl.Readable(Subject(call)) && !call.Reallocate?
      modifies this, Objects(), repr
      ensures Valid() && fresh(repr - old(repr))
      ensures Did(call, r, old(Now()), Now(), base.impl.tiers) == true
      ensures Made(PartOf(call, r, old(base.impl.live), base.impl.live, base.impl.config.guards),
                   old(base.central.small), base.central.small, Through(t)) == true
      ensures caching && old(Reaches(call)) ==> t in slots && slots == old(slots)[t := slots[t]]
      ensures !caching || !old(Reaches(call)) ==> slots == old(slots)
      ensures call.Deallocate? && call.p != 0 && call.p !in old(base.impl.live) ==> Blames(r, old(TraceOf(call.p))) == true
    {
      Open();
      var needed := NeedsCaches(call);
      if needed {
        r := DoCached(call, t);
      } else {
        r := DoUncached(call, t);
      }
    }

    method DoUncached(call: Call, t: Tid) returns (r: Outcome)
      requires Valid() && base.impl.Readable(Subject(call)) && !call.Reallocate? && !Reaches(call)
      modifies Objects()
      ensures Valid() && slots == old(slots) && repr == old(repr)
      ensures Did(call, r, old(Now()), Now(), base.impl.tiers) == true
      ensures call.Deallocate? && call.p != 0 && call.p !in old(base.impl.live) ==> Blames(r, old(TraceOf(call.p))) == true
      ensures Made(PartOf(call, r, old(base.impl.live), base.impl.live, base.impl.config.guards),
                   old(base.central.small), base.central.small, Through(t)) == true
    {
      ghost var m, live, small := Now(), base.impl.live, base.central.small;
      r := DoWith(call, [], t);
      NoSmallPart(call, r, m, Now(), base.impl.tiers, base.impl.config.guards);
      MadeAnyWay(PartOf(call, r, live, base.impl.live, base.impl.config.guards), small, base.central.small, ViaPool, Through(t));
    }

    method DoCached(call: Call, t: Tid) returns (r: Outcome)
      requires Valid() && !call.Reallocate? && Reaches(call)
      modifies this, Objects(), repr
      ensures Valid() && fresh(repr - old(repr))
      ensures Did(call, r, old(Now()), Now(), base.impl.tiers) == true
      ensures Made(PartOf(call, r, old(base.impl.live), base.impl.live, base.impl.config.guards),
                   old(base.central.small), base.central.small, Through(t)) == true
      ensures if caching then t in slots && slots == old(slots)[t := slots[t]] else slots == old(slots)
    {
      Open();
      ghost var live, small := base.impl.live, base.central.small;
      var caches := ThreadCache(t);
      ghost var mid := base.central.small;
      Foreign(caches);
      r := DoWith(call, caches, t);
      MadeAfterIdle(PartOf(call, r, live, base.impl.live, base.impl.config.guards), small, mid, base.central.small, Way(caches, t));
    }

    /** The copy of a move, by any thread. */
    method CopyOver(q: int, p: int, n: nat)
      requires Valid() && q in Seen().heap && p in Seen().heap && 0 < n <= |Seen().heap[q]| && n <= |Seen().heap[p]|
      modifies base.impl
      ensures Valid() && CopiedTo(old(Seen()), Seen(), q, p, n) == true && base.impl.live == old(base.impl.live)
    {
      Open();
      Foreign([]);
      base.CopyOver(q, p, n);
    }

    /** reallocate of a block that is held: allocate, copy what fits, free. */
    method Move(p: int, size: nat, t: Tid) returns (r: Outcome, ghost between: seq<System>)
      requires Valid() && p in base.impl.live && p != 0 && size > 0
      modifies this, Objects(), repr
      ensures Valid() && fresh(repr - old(repr))
      ensures Did(Reallocate(p, size), r, old(Now()), Now(), base.impl.tiers) == true
      ensures Made(NewPart(size, r, base.impl.config.guards), old(base.central.small), between, Through(t)) == true
      ensures r.Ok? ==> GaveBack(between, base.central.small, Through(t), old(base.impl.live)[p].raw.owner,
                                 old(base.impl.live)[p].raw.lo) == true
      ensures r.Err? ==> between == base.central.small
      ensures OneSlot(old(slots), slots, t, caching) == true
      ensures caching && old(Reaches(Allocate(size))) ==> t in slots
      ensures caching && r.Ok? && old(base.impl.live)[p].raw.owner.Small? ==> t in slots
    {
      ghost var m, was := Now(), slots;
      var before;
      r, before := MakeRoom(p, size, t);
      ghost var m1, t1, mid := Now(), base.impl.tiers, slots;
      between := base.central.small;
      if r.Ok? {
        var freed, m2 := CopyAndFree(r.ptr, p, Min(before, size), t);
        OneSlotTwice(was, mid, slots, t, caching);
        MoveDid(p, size, r, freed, m, m1, m2, Now(), t1, base.impl.tiers);
      }
    }

    /** The allocation of a move. */
    method MakeRoom(p: int, size: nat, t: Tid) returns (r: Outcome, before: nat)
      requires Valid() && p in base.impl.live && p != 0 && size > 0
      modifies this, Objects(), repr
      ensures Valid() && fresh(repr - old(repr))
      ensures p in old(Now()).holding.heap && before == |old(Now()).holding.heap[p]| >= 1
      ensures Did(Allocate(size), r, old(Now()), Now(), base.impl.tiers) == true
      ensures r.Err? ==> Did(Reallocate(p, size), r, old(Now()), Now(), base.impl.tiers) == true
      ensures r.Ok? ==>
                && r.ptr in Seen().heap && |Seen().heap[r.ptr]| == size
                && p in Seen().heap && |Seen().heap[p]| == before
                && p in base.impl.live && base.impl.live[p] == old(base.impl.live)[p]
      ensures Made(NewPart(size, r, base.impl.config.guards), old(base.central.small), base.central.small, Through(t)) == true
      ensures OneSlot(old(slots), slots, t, caching) == true
      ensures caching && old(Reaches(Allocate(size))) ==> t in slots
    {
      ghost var m := Now();
      before := Held(p);
      r := DoPart(Allocate(size), t);
      MoveHalfway(p, size, r, m, Now(), base.impl.tiers);
    }

    /** The rest of a move, which is in mid between the copy and the free. */
    method CopyAndFree(q: int, p: int, n: nat, t: Tid) returns (freed: Outcome, ghost mid: Moment)
      requires Valid() && q in Seen().heap && p in Seen().heap && 0 < n <= |Seen().heap[q]| && n <= |Seen().heap[p]|
      modifies this, Objects(), repr
      ensures Valid() && fresh(repr - old(repr))
      ensures CopiedTo(old(Seen()), mid.holding, q, p, n) == true && mid.live == old(base.impl.live)
      ensures Did(Deallocate(p), freed, mid, Now(), base.impl.tiers) == true
      ensures GaveBack(old(base.central.small), base.central.small, Through(t), old(base.impl.live)[p].raw.owner,
                       old(base.impl.live)[p].raw.lo) == true
      ensures OneSlot(old(slots), slots, t, caching) == true
      ensures caching && old(base.impl.live)[p].raw.owner.Small? ==> t in slots
    {
      CopyOver(q, p, n);
      mid := Now();
      ghost var small, k := base.central.small, base.impl.live[p];
      freed := DoPart(Deallocate(p), t);
      OpenMade(Undraw(k.raw.owner, k.raw.lo), small, base.central.small, Through(t));
    }

    /** The size of a block that is held. */
    method Held(p: int) returns (n: nat)
      requires Valid() && p in base.impl.live
      ensures p in Seen().heap && n == |Seen().heap[p]| == base.impl.live[p].size >= 1
    {
      Open();
      LiveHeader(base.impl.Now(), base.impl.config.tracking, p);
      n := base.AllocationSize(p);
    }

    /** reallocate of a pointer that is not held. */
    method Refuse(p: int, size: nat) returns (r: Outcome)
      requires Valid() && base.impl.Readable(p) && p != 0 && p !in base.impl.live && size > 0
      modifies base.impl, base.impl.debug
      ensures Valid() && Did(Reallocate(p, size), r, old(Now()), Now(), base.impl.tiers) == true
      ensures r == Err(InvalidPointer)
    {
      Open();
      Foreign([]);
      r := base.Refuse(p, size, false);
    }

    /** Any call by any thread. With thread caches, every small block goes through the cache
        of the thread that calls, which is made when it is first needed. Between says how the
        small tier was after the allocation, or the free; in a move, another free follows. */
    method Do(call: Call, t: Tid) returns (r: Outcome, ghost between: seq<System>)
      requires Valid() && base.impl.Readable(Subject(call))
      modifies this, Objects(), repr
      ensures Valid() && fresh(repr - old(repr))
      ensures Did(call, r, old(Now()), Now(), base.impl.tiers) == true
      ensures base.impl.config.tracking && IsFree(call) && Subject(call) != 0 && Subject(call) !in old(Seen()).heap ==>
                r == Err(if Subject(call) in old(Seen()).books.ever then DoubleFree else InvalidPointer)
      ensures !base.impl.config.tracking && IsFree(call) && Subject(call) != 0 && Subject(call) !in old(Seen()).heap ==>
                r == Err(if 0x51 <= old(TierAt(base.impl.mem, Subject(call) - 16)) <= 0x55 &&
                            old(StateAt(base.impl.mem, Subject(call) - 16)) == 0xF4EE
                         then DoubleFree else InvalidPointer)
      ensures (call.Allocate? || (call.Reallocate? && (call.p == 0 || call.size > 0))) && r.Ok? ==>
                Drew(old(base.central.small), between, Through(t),
                     (if call.size == 0 then 1 else call.size) + (if base.impl.config.guards then 64 else 0),
                     r.ptr - (if base.impl.config.guards then 48 else 16)) == true
      ensures call.AlignedAllocate? && r.Ok? ==>
                && r.ptr in base.impl.live
                && Drew(old(base.central.small), between, Through(t),
                        (if call.size == 0 then 1 else call.size) +
                        (if call.alignment > 16 then call.alignment else if base.impl.config.guards then 64 else 0),
                        base.impl.live[r.ptr].raw.lo) == true
      ensures IsFree(call) && Subject(call) in old(base.impl.live) ==>
                GaveBack(old(base.central.small), between, Through(t),
                         old(base.impl.live)[Subject(call)].raw.owner, old(base.impl.live)[Subject(call)].raw.lo) == true
      ensures r.Err? ==> AllIdle(old(base.central.small), between) == true
      ensures if call.Reallocate? && call.p in old(base.impl.live) && call.size > 0 && r.Ok? then
                GaveBack(between, base.central.small, Through(t), old(base.impl.live)[call.p].raw.owner,
                         old(base.impl.live)[call.p].raw.lo) == true
              else between == base.central.small
      ensures slots == old(slots) || (caching && t in slots && slots == old(slots)[t := slots[t]])
      ensures (&& caching && (call.Allocate? || (call.Reallocate? && (call.p == 0 || (call.p in old(base.impl.live) && call.size > 0))))
               && (if call.size == 0 then 1 else call.size) + (if base.impl.config.guards then 64 else 0) <= 4096) ==> t in slots
      ensures (&& caching && call.AlignedAllocate? && r.Ok?
               && (if call.size == 0 then 1 else call.size) +
                  (if call.alignment > 16 then call.alignment else if base.impl.config.guards then 64 else 0) <= 4096) ==> t in slots
      ensures (&& caching && (call.Deallocate? || call.Reallocate?) && Subject(call) in old(base.impl.live) && r.Ok?
               && old(base.impl.live)[Subject(call)].raw.owner.Small?) ==> t in slots
      ensures !call.Reallocate? && !old(Reaches(call)) ==> slots == old(slots)
    {
      LiveKeys();
      ghost var m, small, was := Now(), base.central.small, slots;
      r, between := Act(call, t);
      OpenSlots(was, slots, t, caching);
      Account(call, r, m, Now(), base.impl.tiers, base.impl.config.guards, small, between, Through(t));
    }

    /** Either one part, or the parts of a move. */
    method Act(call: Call, t: Tid) returns (r: Outcome, ghost between: seq<System>)
      requires Valid() && base.impl.Readable(Subject(call))
      modifies this, Objects(), repr
      ensures Valid() && fresh(repr - old(repr))
      ensures Did(call, r, old(Now()), Now(), base.impl.tiers) == true
      ensures base.impl.config.tracking && IsFree(call) && Subject(call) != 0 && Subject(call) !in old(Seen()).heap ==>
                r == Err(if Subject(call) in old(Seen()).books.ever then DoubleFree else InvalidPointer)
      ensures !base.impl.config.tracking && IsFree(call) && Subject(call) != 0 && Subject(call) !in old(Seen()).heap ==>
                r == Err(if 0x51 <= old(TierAt(base.impl.mem, Subject(call) - 16)) <= 0x55 &&
                            old(StateAt(base.impl.mem, Subject(call) - 16)) == 0xF4EE
                         then DoubleFree else InvalidPointer)
      ensures Made(PartOf(call, r, old(base.impl.live), base.impl.live, base.impl.config.guards),
                   old(base.central.small), between, Through(t)) == true
      ensures if call.Reallocate? && call.p in old(base.impl.live) && call.size > 0 && r.Ok? then
                GaveBack(between, base.central.small, Through(t), old(base.impl.live)[call.p].raw.owner,
                         old(base.impl.live)[call.p].raw.lo) == true
              else between == base.central.small
      ensures OneSlot(old(slots), slots, t, caching) == true
      ensures caching && old(Reaches(call)) ==> t in slots
      ensures !call.Reallocate? && !old(Reaches(call)) ==> slots == old(slots)
      ensures (&& caching && call.Reallocate? && call.p in old(base.impl.live) && r.Ok?
               && old(base.impl.live)[call.p].raw.owner.Small?) ==> t in slots
    {
      LiveKeys();
      match call {
        case Reallocate(p, size) =>
          r, between := DoMove(p, size, t);
        case _ =>
          r := DoPart(call, t);
          between := base.central.small;
      }
    }

    method DoMove(p: int, size: nat, t: Tid) returns (r: Outcome, ghost between: seq<System>)
      requires Valid() && base.impl.Readable(p)
      modifies this, Objects(), repr
      ensures Valid() && fresh(repr - old(repr))
      ensures Did(Reallocate(p, size), r, old(Now()), Now(), base.impl.tiers) == true
      ensures p != 0 && size == 0 && p !in old(base.impl.live) ==> Blames(r, old(TraceOf(p))) == true
      ensures Made(PartOf(Reallocate(p, size), r, old(base.impl.live), base.impl.live, base.impl.config.guards),
                   old(base.central.small), between, Through(t)) == true
      ensures if p in old(base.impl.live) && size > 0 && r.Ok? then
                GaveBack(between, base.central.small, Through(t), old(base.impl.live)[p].raw.owner,
                         old(base.impl.live)[p].raw.lo) == true
              else between == base.central.small
      ensures OneSlot(old(slots), slots, t, caching) == true
      ensures caching && old(Reaches(Reallocate(p, size))) ==> t in slots
      ensures caching && p in old(base.impl.live) && r.Ok? && old(base.impl.live)[p].raw.owner.Small? ==> t in slots
    {
      between := base.central.small;
      if p == 0 {
        LiveKeys();
        r := DoPart(Allocate(size), t);
        between := base.central.small;
      } else if size == 0 {
        r := DoPart(Deallocate(p), t);
        between := base.central.small;
      } else {
        r, between := MoveIfHeld(p, size, t);
      }
    }

    method MoveIfHeld(p: int, size: nat, t: Tid) returns (r: Outcome, ghost between: seq<System>)
      requires Valid() && base.impl.Readable(p) && p != 0 && size > 0
      modifies this, Objects(), repr
      ensures Valid() && fresh(repr - old(repr))
      ensures Did(Reallocate(p, size), r, old(Now()), Now(), base.impl.tiers) == true
      ensures Made(NewPart(size, r, base.impl.config.guards), old(base.central.small), between, Through(t)) == true
      ensures if p in old(base.impl.live) && r.Ok? then
                GaveBack(between, base.central.small, Through(t), old(base.impl.live)[p].raw.owner,
                         old(base.impl.live)[p].raw.lo) == true
              else between == base.central.small
      ensures OneSlot(old(slots), slots, t, caching) == true
      ensures caching && p in old(base.impl.live) && old(Reaches(Allocate(size))) ==> t in slots
      ensures caching && p in old(base.impl.live) && r.Ok? && old(base.impl.live)[p].raw.owner.Small? ==> t in slots
    {
      between := base.central.small;
      var held := IsHeld(p);
      if held {
        r, between := Move(p, size, t);
      } else {
        r := Refuse(p, size);
      }
    }

    lemma LiveKeys()
      requires Valid()
      ensures 0 !in base.impl.live && Seen().heap.Keys == base.impl.live.Keys
    {
      Open();
      NotNull(base.impl.Now(), base.impl.config.tracking);
    }

    method IsHeld(p: int) returns (held: bool)
      requires Valid() && base.impl.Readable(p)
      ensures held <==> p in base.impl.live
      ensures AllIdle(base.central.small, base.central.small) == true
    {
      Open();
      SameIsIdle(base.central.small);
      held := base.impl.Accepts(p);
    }

    /** What the slot of a thread holds for a class is what the thread has cached of it. */
    lemma CachedInSlots(t: Tid, c: nat)
      requires Valid() && c < CLASS_COUNT
      ensures |base.central.small| == CLASS_COUNT
      ensures if t in slots then |slots[t]| == CLASS_COUNT && slots[t][c].View() == CacheOf(base.central.small[c], t)
              else CacheOf(base.central.small[c], t) == []
    {
      Open();
      if t in slots { assert OwnsOne(base.central.small[c], base.central.segments.bins, slots[t][c], t); }
    }

    /** allocationSize, as for one thread. */
    method AllocationSize(p: int) returns (n: nat)
      requires Valid()
      ensures base.impl.Readable(p) ==> n == if p in Seen().heap then |Seen().heap[p]| else 0
    {
      Open();
      n := base.AllocationSize(p);
    }

    /** A thread writes a byte of a block; any thread may hold its pointer. */
    method Write(p: int, i: nat, value: Byte)
      requires Valid() && p in Seen().heap && i < |Seen().heap[p]|
      modifies base.impl
      ensures Valid()
      ensures Seen() == old(Seen()).(heap := old(Seen()).heap[p := old(Seen()).heap[p][i := value]])
    {
      Open();
      Foreign([]);
      base.Write(p, i, value);
    }

    /** Thread t ends: what its caches hold goes back, class by class, and its slot is gone. */
    method ThreadEnds(t: Tid)
      requires Valid()
      modifies this, Objects(), repr
      ensures Valid() && Seen() == old(Seen()) && slots == old(slots) - {t} && repr == old(repr)
      ensures if t in old(slots) then FlushedBelow(old(base.central.small), base.central.small, t, CLASS_COUNT) == true
              else base.central.small == old(base.central.small)
    {
      if t in slots {
        DropCaches(t);
      }
    }

    /** The caches of t are flushed, but still in its slot. */
    method FlushCaches(t: Tid, caches: seq<ClassCache>)
      requires Valid() && Ready(caches, t) && |caches| > 0
      modifies Objects(), CacheObjects(caches)
      ensures base.Valid() == true && base.central.NoCaches(t) && Seen() == old(Seen())
      ensures OthersKeep(old(base.central.small), base.central.small, {t}) == true
      ensures Equipped(old(base.central.small), {t}) && slots == old(slots) && repr == old(repr)
      ensures FlushedBelow(old(base.central.small), base.central.small, t, CLASS_COUNT) == true
    {
      Open();
      ghost var small := base.central.small;
      OthersBeside(caches, t);
      Foreign(caches);
      base.ThreadEnds(caches, t);
      forall u | u in slots && u != t
        ensures CacheObjects(slots[u]) <= repr && Owns(small, base.central.segments.bins, slots[u], u)
      {
        assert old(Owns(base.central.small, base.central.segments.bins, slots[u], u));
      }
    }

    method DropCaches(t: Tid)
      requires Valid() && t in slots
      modifies this, Objects(), repr
      ensures Valid() && Seen() == old(Seen()) && slots == old(slots) - {t} && repr == old(repr)
      ensures FlushedBelow(old(base.central.small), base.central.small, t, CLASS_COUNT) == true
    {
      Open();
      ghost var small := base.central.small;
      var caches := slots[t];
      OwnsAsCaches(base.central, caches, t);
      FlushCaches(t, caches);
      Foreign([]);
      slots := slots - {t};
      Resume(small, {t}, [], t);
    }
  }
}
