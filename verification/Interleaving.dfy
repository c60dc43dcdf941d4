/** The facade's calls as any number of threads take their steps: the call of a tier, each
    write of a header, a guard or a poison byte, and handing the block over. */
module Interleaving {
  import opened SizeClasses
  import opened PoolSystem
  import opened Tiers
  import opened TierWrites
  import opened RawMemory
  import opened FacadeState
  import opened FreedBlocks
  import opened FacadeSteps
  import opened FacadeViews
  import opened SystemMemory
  import opened Words
  import opened Alignment

  /** Who answers for a raw block: the client that got pointer p, or a thread in the middle of
      a call. */
  datatype Holder = Client(p: int) | Worker(u: Tid)

  /** The tiers and memory; who holds which raw block; the blocks that clients hold; and for
      each thread in the middle of a call, memory as if it had run alone since it got hold of
      its raw block. */
  datatype Shared = Shared(tiers: TierState, mem: Memory, owners: map<Holder, Raw>, live: Blocks, alone: map<Tid, Memory>)

  datatype Step =
    | Obtain(u: Tid, size: nat, answer: Answer, grant: Grant)
    | Work(u: Tid, write: Memory -> Memory)
    | Issue(u: Tid, p: int, k: Block)
    | Use(p: int, write: Memory -> Memory)
    | Withdraw(u: Tid, p: int)
    | Return(u: Tid, taken: Taken, via: Via)
    | Move(class_: nat, step: PoolSystem.Step, writes: Memory -> Memory)

  /** The write goes to the raw block, and depends on nothing outside. */
  ghost predicate Local(write: Memory -> Memory, r: Raw) {
    && (forall m :: Only(m, write(m), r.lo, r.hi))
    && (forall m, n :: Same(m, n, r.lo, r.hi) ==> Same(write(m), write(n), r.lo, r.hi))
  }

  /** The write goes to the bytes of the client at p. */
  ghost predicate Own(write: Memory -> Memory, p: int, size: nat) {
    forall m :: Only(m, write(m), p, p + size)
  }

  /** A thread may call a tier when it holds nothing, hand over what looks like a block if it
      had run alone, and so on; clients use and give up only what they hold. */
  ghost predicate Enabled(s: Shared, step: Step) {
    match step
    case Obtain(u, size, answer, grant) =>
      Worker(u) !in s.owners && size >= 1 && answer.Served? && Answers(s.tiers, size, answer, grant)
    case Work(u, write) =>
      Worker(u) in s.owners && Local(write, s.owners[Worker(u)])
    case Issue(u, p, k) =>
      Worker(u) in s.owners && u in s.alone && k.raw == s.owners[Worker(u)] && BlockOK(s.alone[u], p, k)
    case Use(p, write) =>
      p in s.live && Own(write, p, s.live[p].size)
    case Withdraw(u, p) =>
      p in s.live && Worker(u) !in s.owners
    case Return(u, taken, via) =>
      Worker(u) in s.owners && Takes(s.tiers, s.owners[Worker(u)], taken, via)
    case Move(c, step, writes) =>
      Moves(s.tiers, c, step, writes)
  }

  ghost function Apply(s: Shared, step: Step): Shared
    requires Enabled(s, step)
  {
    match step
    case Obtain(u, size, answer, grant) =>
      var m := answer.writes(s.mem);
      Shared(Serve(s.tiers, size, grant), m, s.owners[Worker(u) := Given(s.tiers, size, grant)], s.live, s.alone[u := m])
    case Work(u, write) =>
      s.(mem := write(s.mem), alone := if u in s.alone then s.alone[u := write(s.alone[u])] else s.alone)
    case Issue(u, p, k) =>
      s.(owners := (s.owners - {Worker(u)})[Client(p) := k.raw], live := s.live[p := k], alone := s.alone - {u})
    case Use(p, write) =>
      s.(mem := write(s.mem))
    case Withdraw(u, p) =>
      s.(owners := (s.owners - {Client(p)})[Worker(u) := s.live[p].raw], live := s.live - {p}, alone := s.alone[u := s.mem])
    case Return(u, taken, via) =>
      Shared(Release(s.tiers, s.owners[Worker(u)], via), taken.writes(s.mem), s.owners - {Worker(u)}, s.live, s.alone - {u})
    case Move(c, step, writes) =>
      s.(tiers := Threaded(s.tiers, c, step), mem := writes(s.mem))
  }

  // --------------------------------------------------------------------------- invariant

  /** Every raw block that a tier has handed out has exactly one holder. */
  ghost predicate OwnersOK(t: TierState, owners: map<Holder, Raw>) {
    && (forall h :: h in owners ==> IsRaw(t, owners[h]))
    && (forall h, g {:trigger Both(owners, h, g)} :: !Both(owners, h, g))
    && (forall r :: IsRaw(t, r) ==> Held(owners, r))
  }

  ghost predicate Both(owners: map<Holder, Raw>, h: Holder, g: Holder) {
    h in owners && g in owners && h != g && owners[h] == owners[g]
  }

  ghost predicate Held(owners: map<Holder, Raw>, r: Raw) {
    exists h :: h in owners && owners[h] == r
  }

  /** The holders are those of the blocks and of the calls. */
  ghost predicate Known(s: Shared) {
    && (forall p :: p in s.live <==> Client(p) in s.owners)
    && (forall u :: u in s.alone <==> Worker(u) in s.owners)
    && (forall p :: p in s.live ==> s.owners[Client(p)] == s.live[p].raw)
  }

  /** A client's block has its headers; a thread's raw block is as if the thread had run alone. */
  ghost predicate HolderOK(s: Shared, h: Holder)
    requires Known(s) && h in s.owners
  {
    match h
    case Client(p) => BlockOK(s.mem, p, s.live[p])
    case Worker(u) => Same(s.mem, s.alone[u], s.owners[h].lo, s.owners[h].hi)
  }

  ghost predicate Inv(s: Shared) {
    && TiersOK(s.tiers) && OwnersOK(s.tiers, s.owners) && Known(s)
    && forall h :: h in s.owners ==> HolderOK(s, h)
  }

  // ---------------------------------------------------------------------------- holders

  lemma HolderAdded(t: TierState, t': TierState, owners: map<Holder, Raw>, h: Holder, r: Raw)
    requires OwnersOK(t, owners) && Gained(t, t', r) && h !in owners
    ensures OwnersOK(t', owners[h := r])
  {
    var owners' := owners[h := r];
    forall q | IsRaw(t', q)
      ensures Held(owners', q)
    {
      if q == r { assert owners'[h] == q; } else { HeldMore(owners, h, r, q); }
    }
    forall i, j
      ensures !Both(owners', i, j)
    {
      assert !Both(owners, i, j);
    }
  }

  lemma HeldMore(owners: map<Holder, Raw>, h: Holder, r: Raw, q: Raw)
    requires h !in owners && Held(owners, q)
    ensures Held(owners[h := r], q)
  {
    var g :| g in owners && owners[g] == q;
    assert owners[h := r][g] == q;
  }

  lemma HolderMoved(t: TierState, owners: map<Holder, Raw>, h: Holder, g: Holder)
    requires OwnersOK(t, owners) && h in owners && g !in owners
    ensures OwnersOK(t, (owners - {h})[g := owners[h]])
  {
    var owners' := (owners - {h})[g := owners[h]];
    forall q | IsRaw(t, q)
      ensures Held(owners', q)
    {
      var j :| j in owners && owners[j] == q;
      assert owners'[if j == h then g else j] == q;
    }
    forall i, j
      ensures !Both(owners', i, j)
    {
      assert !Both(owners, if i == g then h else i, if j == g then h else j);
    }
  }

  lemma HolderGone(t: TierState, t': TierState, owners: map<Holder, Raw>, h: Holder)
    requires OwnersOK(t, owners) && h in owners && Lost(t, t', owners[h])
    ensures OwnersOK(t', owners - {h})
  {
    forall q | IsRaw(t', q)
      ensures Held(owners - {h}, q)
    {
      var j :| j in owners && owners[j] == q;
      assert (owners - {h})[j] == q;
    }
    forall i, j
      ensures !Both(owners - {h}, i, j)
    {
      assert !Both(owners, i, j);
    }
    forall g | g in owners - {h}
      ensures IsRaw(t', owners[g])
    {
      assert !Both(owners, g, h);
    }
  }

  lemma HoldersApart(t: TierState, owners: map<Holder, Raw>, h: Holder, g: Holder)
    requires TiersOK(t) && OwnersOK(t, owners) && h in owners && g in owners && h != g
    ensures !Overlap(owners[h].lo, owners[h].hi, owners[g].lo, owners[g].hi)
  {
    assert !Both(owners, h, g);
    RawsApart(t, owners[h], owners[g]);
  }

  // ----------------------------------------------------------------- others' raw blocks

  /** The holder that takes the step, if it is one. */
  ghost predicate Acts(step: Step, h: Holder) {
    match step
    case Obtain(u, _, _, _) => h == Worker(u)
    case Work(u, _) => h == Worker(u)
    case Issue(u, p, _) => h == Worker(u) || h == Client(p)
    case Use(p, _) => h == Client(p)
    case Withdraw(u, p) => h == Worker(u) || h == Client(p)
    case Return(u, _, _) => h == Worker(u)
    case Move(_, _, _) => false
  }

  /** The holder still holds its raw block, and the bytes are the same. */
  ghost predicate Unharmed(s: Shared, s': Shared, h: Holder) {
    && h in s.owners && h in s'.owners && s'.owners[h] == s.owners[h]
    && Same(s.mem, s'.mem, s.owners[h].lo, s.owners[h].hi)
  }

  /** No step touches a raw block that someone else holds. */
  lemma StepKeepsOthers(s: Shared, step: Step, h: Holder)
    requires Inv(s) == true && Enabled(s, step) && h in s.owners && !Acts(step, h)
    ensures Unharmed(s, Apply(s, step), h) == true
  {
    SameBytes(s, step, h);
    SameOwner(s, step, h);
  }

  lemma SameOwner(s: Shared, step: Step, h: Holder)
    requires Enabled(s, step) && h in s.owners && !Acts(step, h)
    ensures h in Apply(s, step).owners && Apply(s, step).owners[h] == s.owners[h]
  {}

  lemma SameBytes(s: Shared, step: Step, h: Holder)
    requires Inv(s) && Enabled(s, step) && h in s.owners && !Acts(step, h)
    ensures Same(s.mem, Apply(s, step).mem, s.owners[h].lo, s.owners[h].hi)
  {
    var r := s.owners[h];
    assert IsRaw(s.tiers, r);
    match step {
      case Obtain(u, size, answer, grant) =>
        ServeLeaves(s.tiers, s.mem, size, answer, grant, r);
      case Work(u, write) =>
        WriteBeside(s, h, Worker(u), write);
      case Issue(u, p, k) =>
      case Use(p, write) =>
        UseInside(s, p, write);
        WriteBeside(s, h, Client(p), write);
      case Withdraw(u, p) =>
      case Return(u, taken, via) =>
        assert !Both(s.owners, h, Worker(u));
        ReleaseLeaves(s.tiers, s.mem, s.owners[Worker(u)], taken, via, r);
      case Move(c, step, writes) =>
        MoveLeaves(s.tiers, s.mem, c, step, writes, r);
    }
  }

  lemma ServeLeaves(t: TierState, m: Memory, size: nat, answer: Answer, grant: Grant, r: Raw)
    requires TiersOK(t) && answer.Served? && Answers(t, size, answer, grant) && IsRaw(t, r)
    ensures Same(m, answer.writes(m), r.lo, r.hi)
  {
    ServeKeeps(t, size, grant);
    QuietKeeps(Serve(t, size, grant), t, m, answer.writes(m), r);
  }

  lemma ReleaseLeaves(t: TierState, m: Memory, q: Raw, taken: Taken, via: Via, r: Raw)
    requires TiersOK(t) && Takes(t, q, taken, via) && IsRaw(t, r) && r != q
    ensures Same(m, taken.writes(m), r.lo, r.hi)
  {
    ReleaseKeeps(t, q, via);
    QuietKeeps(t, Release(t, q, via), m, taken.writes(m), r);
  }

  lemma MoveLeaves(t: TierState, m: Memory, c: nat, step: PoolSystem.Step, writes: Memory -> Memory, r: Raw)
    requires TiersOK(t) && Moves(t, c, step, writes) && IsRaw(t, r)
    ensures Same(m, writes(m), r.lo, r.hi)
  {
    ThreadedKeeps(t, c, step);
    QuietKeeps(t, Threaded(t, c, step), m, writes(m), r);
  }

  lemma WriteBeside(s: Shared, h: Holder, g: Holder, write: Memory -> Memory)
    requires TiersOK(s.tiers) && OwnersOK(s.tiers, s.owners) && h in s.owners && g in s.owners && h != g
    requires Only(s.mem, write(s.mem), s.owners[g].lo, s.owners[g].hi)
    ensures Same(s.mem, write(s.mem), s.owners[h].lo, s.owners[h].hi)
  {
    HoldersApart(s.tiers, s.owners, h, g);
  }

  lemma UseInside(s: Shared, p: int, write: Memory -> Memory)
    requires Inv(s) && p in s.live && Own(write, p, s.live[p].size)
    ensures Client(p) in s.owners && Only(s.mem, write(s.mem), s.owners[Client(p)].lo, s.owners[Client(p)].hi)
  {
    assert HolderOK(s, Client(p));
    UserInside(s.mem, p, s.live[p]);
    OnlyWiden(s.mem, write(s.mem), p, p + s.live[p].size, s.live[p].raw.lo, s.live[p].raw.hi);
  }

  lemma OtherStaysOK(s: Shared, step: Step, h: Holder)
    requires Inv(s) && Enabled(s, step) && h in s.owners && !Acts(step, h) && Known(Apply(s, step))
    ensures h in Apply(s, step).owners && HolderOK(Apply(s, step), h)
  {
    StepKeepsOthers(s, step, h);
    StepKeepsNotes(s, step, h);
    assert HolderOK(s, h);
    UnharmedOK(s, Apply(s, step), h);
  }

  /** What is known of a holder. */
  ghost predicate SameNotes(s: Shared, s': Shared, h: Holder) {
    match h
    case Client(p) => p in s.live && p in s'.live && s'.live[p] == s.live[p]
    case Worker(u) => u in s.alone && u in s'.alone && s'.alone[u] == s.alone[u]
  }

  lemma StepKeepsNotes(s: Shared, step: Step, h: Holder)
    requires Known(s) && Enabled(s, step) && h in s.owners && !Acts(step, h)
    ensures SameNotes(s, Apply(s, step), h)
  {
    match step {
      case Obtain(_, _, _, _) =>
      case Work(_, _) =>
      case Issue(_, _, _) =>
      case Use(_, _) =>
      case Withdraw(_, _) =>
      case Return(_, _, _) =>
      case Move(_, _, _) =>
    }
  }

  lemma UnharmedOK(s: Shared, s': Shared, h: Holder)
    requires Known(s) && Known(s') && Unharmed(s, s', h) && SameNotes(s, s', h) && HolderOK(s, h)
    ensures HolderOK(s', h)
  {
    match h {
      case Client(p) =>
        BlockFrame(s.mem, s'.mem, p, s.live[p]);
      case Worker(u) =>
        SameBack(s.mem, s'.mem, s.alone[u], s.owners[h].lo, s.owners[h].hi);
    }
  }

  lemma SameBack(m: Memory, m': Memory, n: Memory, lo: int, hi: int)
    requires Same(m, m', lo, hi) && Same(m, n, lo, hi)
    ensures Same(m', n, lo, hi)
  {}

  /** The pointer of a finished block is not yet held. */
  lemma IssueIsNew(s: Shared, u: Tid, p: int, k: Block)
    requires Inv(s) == true && Enabled(s, Issue(u, p, k))
    ensures Client(p) !in s.owners && BlockOK(s.mem, p, k) == true && p !in s.live
  {
    assert HolderOK(s, Worker(u));
    BlockFrame(s.alone[u], s.mem, p, k);
    UserInside(s.mem, p, k);
    if Client(p) in s.owners {
      assert HolderOK(s, Client(p));
      UserInside(s.mem, p, s.live[p]);
      HoldersApart(s.tiers, s.owners, Client(p), Worker(u));
    }
  }

  lemma StepKeepsOwners(s: Shared, step: Step)
    requires Inv(s) && Enabled(s, step)
    ensures TiersOK(Apply(s, step).tiers) && OwnersOK(Apply(s, step).tiers, Apply(s, step).owners)
  {
    match step {
      case Obtain(u, size, answer, grant) =>
        ServeKeeps(s.tiers, size, grant);
        HolderAdded(s.tiers, Apply(s, step).tiers, s.owners, Worker(u), Given(s.tiers, size, grant));
      case Work(u, write) =>
      case Issue(u, p, k) =>
        IssueIsNew(s, u, p, k);
        HolderMoved(s.tiers, s.owners, Worker(u), Client(p));
      case Use(p, write) =>
      case Withdraw(u, p) =>
        HolderMoved(s.tiers, s.owners, Client(p), Worker(u));
      case Return(u, taken, via) =>
        ReleaseKeeps(s.tiers, s.owners[Worker(u)], via);
        HolderGone(s.tiers, Apply(s, step).tiers, s.owners, Worker(u));
      case Move(c, step, writes) =>
        ThreadedKeeps(s.tiers, c, step);
    }
  }

  lemma StepKeepsKnown(s: Shared, step: Step)
    requires Known(s) == true && Enabled(s, step) && (step.Issue? ==> Client(step.p) !in s.owners)
    ensures Known(Apply(s, step)) == true
  {
    match step {
      case Obtain(u, size, answer, grant) =>
        KnownTask(s, Apply(s, step), u, Given(s.tiers, size, grant), answer.writes(s.mem));
      case Work(_, _) =>
      case Issue(u, p, k) =>
        KnownIssue(s, u, p, k);
      case Use(_, _) =>
      case Withdraw(u, p) =>
        KnownWithdraw(s, u, p);
      case Return(u, _, _) =>
        KnownReturn(s, Apply(s, step), u);
      case Move(_, _, _) =>
    }
  }

  lemma KnownTask(s: Shared, s': Shared, u: Tid, r: Raw, m: Memory)
    requires Known(s) && s'.live == s.live && s'.owners == s.owners[Worker(u) := r] && s'.alone == s.alone[u := m]
    ensures Known(s')
  {}

  lemma KnownIssue(s: Shared, u: Tid, p: int, k: Block)
    requires Known(s)
    ensures Known(s.(owners := (s.owners - {Worker(u)})[Client(p) := k.raw], live := s.live[p := k], alone := s.alone - {u}))
  {}

  lemma KnownWithdraw(s: Shared, u: Tid, p: int)
    requires Known(s) && p in s.live
    ensures Known(s.(owners := (s.owners - {Client(p)})[Worker(u) := s.live[p].raw], live := s.live - {p}, alone := s.alone[u := s.mem]))
  {}

  lemma KnownReturn(s: Shared, s': Shared, u: Tid)
    requires Known(s) && s'.live == s.live && s'.owners == s.owners - {Worker(u)} && s'.alone == s.alone - {u}
    ensures Known(s')
  {}

  /** The holder that takes the step. */
  lemma ActorStaysOK(s: Shared, step: Step, h: Holder)
    requires Inv(s) && Enabled(s, step) && Acts(step, h) && Known(Apply(s, step)) && h in Apply(s, step).owners
    ensures HolderOK(Apply(s, step), h)
  {
    match step {
      case Obtain(u, size, answer, grant) =>
      case Work(u, write) =>
        assert HolderOK(s, h);
      case Issue(u, p, k) =>
        IssueIsNew(s, u, p, k);
      case Use(p, write) =>
        assert HolderOK(s, h);
        WriteKeepsBlock(s.mem, write(s.mem), p, s.live[p], p, p + s.live[p].size);
      case Withdraw(u, p) =>
      case Return(u, taken, via) =>
      case Move(c, step, writes) =>
    }
  }

  /** Every step of any thread or client keeps the invariant. */
  lemma StepKeepsInv(s: Shared, step: Step)
    requires Inv(s) == true && Enabled(s, step)
    ensures Inv(Apply(s, step)) == true
  {
    var s' := Apply(s, step);
    StepKeepsOwners(s, step);
    if step.Issue? { IssueIsNew(s, step.u, step.p, step.k); }
    StepKeepsKnown(s, step);
    forall h | h in s'.owners
      ensures HolderOK(s', h)
    {
      if Acts(step, h) { ActorStaysOK(s, step, h); } else { OtherStaysOK(s, step, h); }
    }
  }

  // -------------------------------------------------------------------------------- runs

  ghost predicate Legal(s: Shared, run: seq<Step>)
    decreases |run|
  {
    run == [] || (Enabled(s, run[0]) && Legal(Apply(s, run[0]), run[1..]))
  }

  ghost function Exec(s: Shared, run: seq<Step>): Shared
    requires Legal(s, run)
    decreases |run|
  {
    if run == [] then s else Exec(Apply(s, run[0]), run[1..])
  }

  lemma {:induction false} RunKeepsInv(s: Shared, run: seq<Step>)
    requires Inv(s) == true && Legal(s, run)
    ensures Inv(Exec(s, run)) == true
    decreases |run|
  {
    if run != [] {
      StepKeepsInv(s, run[0]);
      RunKeepsInv(Apply(s, run[0]), run[1..]);
    }
  }

  /** Nothing is handed out or held yet. */
  ghost predicate Initial(s: Shared) {
    && TiersOK(s.tiers) && (forall r :: !IsRaw(s.tiers, r))
    && s.owners.Keys == {} && s.live.Keys == {} && s.alone.Keys == {}
  }

  lemma InitialInv(s: Shared)
    requires Initial(s)
    ensures Inv(s)
  {}

  /** After any run of any number of threads the blocks that two clients hold lie in raw blocks
      that do not overlap, and their headers are as they were written. */
  lemma HeldApart(s: Shared, run: seq<Step>, p: int, q: int)
    requires Initial(s) && Legal(s, run) && p in Exec(s, run).live && q in Exec(s, run).live && p != q
    ensures var s' := Exec(s, run);
            && !Overlap(s'.live[p].raw.lo, s'.live[p].raw.hi, s'.live[q].raw.lo, s'.live[q].raw.hi)
            && s'.live[p].raw.lo + HEADER_SIZE <= p && p + s'.live[p].size <= s'.live[p].raw.hi
            && BlockOK(s'.mem, p, s'.live[p])
  {
    var s' := Exec(s, run);
    InitialInv(s);
    RunKeepsInv(s, run);
    HoldersApart(s'.tiers, s'.owners, Client(p), Client(q));
    assert HolderOK(s', Client(p));
    UserInside(s'.mem, p, s'.live[p]);
  }

  /** No step of the run is one of the holder's own. */
  ghost predicate Idle(run: seq<Step>, h: Holder) {
    forall i :: 0 <= i < |run| ==> !Acts(run[i], h)
  }

  /** What a holder has is left alone by any run of the others, byte for byte. */
  lemma {:induction false} RunKeepsOthers(s: Shared, run: seq<Step>, h: Holder)
    requires Inv(s) && Legal(s, run) && h in s.owners && Idle(run, h)
    ensures Unharmed(s, Exec(s, run), h)
    decreases |run|
  {
    if run != [] {
      var s1, r := Apply(s, run[0]), s.owners[h];
      assert !Acts(run[0], h);
      StepKeepsOthers(s, run[0], h);
      StepKeepsInv(s, run[0]);
      forall i | 0 <= i < |run[1..]|
        ensures !Acts(run[1..][i], h)
      {
        assert !Acts(run[i + 1], h);
      }
      RunKeepsOthers(s1, run[1..], h);
      SameTrans(s.mem, s1.mem, Exec(s, run).mem, r.lo, r.hi);
    }
  }

  /** The contents of a block change by its client's own writes only. */
  lemma ContentsKept(s: Shared, run: seq<Step>, p: int)
    requires Inv(s) && Legal(s, run) && p in s.live && Idle(run, Client(p))
    ensures var s' := Exec(s, run);
            p in s'.live && Contents(s'.mem, p, s.live[p].size) == Contents(s.mem, p, s.live[p].size)
  {
    RunKeepsOthers(s, run, Client(p));
    RunKeepsInv(s, run);
    assert HolderOK(s, Client(p));
    UserInside(s.mem, p, s.live[p]);
    SameContents(s.mem, Exec(s, run).mem, s.live[p].raw.lo, s.live[p].raw.hi, p, s.live[p].size);
  }

  // --------------------------------------------------------------------- as if run alone

  /** The writes of thread u in the run, in order. */
  ghost function Writes(run: seq<Step>, u: Tid): seq<Memory -> Memory> {
    if run == [] then []
    else (if run[0].Work? && run[0].u == u then [run[0].write] else []) + Writes(run[1..], u)
  }

  ghost function Written(m: Memory, writes: seq<Memory -> Memory>): Memory
    decreases |writes|
  {
    if writes == [] then m else Written(writes[0](m), writes[1..])
  }

  /** Thread u only writes. */
  ghost predicate OnlyWrites(run: seq<Step>, u: Tid) {
    forall i :: 0 <= i < |run| && Acts(run[i], Worker(u)) ==> run[i].Work?
  }

  /** Whatever the others do in between, the raw block of a thread in the middle of a call is
      as its own writes alone would leave it. */
  lemma {:induction false} RanAlone(s: Shared, run: seq<Step>, u: Tid)
    requires Inv(s) == true && Legal(s, run) && u in s.alone && OnlyWrites(run, u)
    ensures AsAlone(s, Exec(s, run), u, Writes(run, u)) == true
    decreases |run|
  {
    if run == [] {
      assert HolderOK(s, Worker(u));
    } else {
      StepKeepsInv(s, run[0]);
      assert Acts(run[0], Worker(u)) ==> run[0].Work?;
      StepOfOne(s, run[0], u);
      RestWrites(run, u);
      RanAlone(Apply(s, run[0]), run[1..], u);
      FirstWrite(s.alone[u], run, u);
    }
  }

  lemma FirstWrite(m: Memory, run: seq<Step>, u: Tid)
    requires run != []
    ensures Written(m, Writes(run, u)) ==
            Written(if run[0].Work? && run[0].u == u then run[0].write(m) else m, Writes(run[1..], u))
  {
    var rest := Writes(run[1..], u);
    if run[0].Work? && run[0].u == u {
      assert ([run[0].write] + rest)[1..] == rest;
    } else {
      assert [] + rest == rest;
    }
  }

  ghost predicate AsAlone(s: Shared, s': Shared, u: Tid, writes: seq<Memory -> Memory>) {
    && Working(s, s', u) && s'.alone[u] == Written(s.alone[u], writes)
    && Same(s'.mem, s'.alone[u], s.owners[Worker(u)].lo, s.owners[Worker(u)].hi)
  }

  /** Thread u is in the middle of the same call in both. */
  ghost predicate Working(s: Shared, s': Shared, u: Tid) {
    && u in s.alone && u in s'.alone && Worker(u) in s.owners && Worker(u) in s'.owners
    && s'.owners[Worker(u)] == s.owners[Worker(u)]
  }

  lemma RestWrites(run: seq<Step>, u: Tid)
    requires run != [] && OnlyWrites(run, u)
    ensures OnlyWrites(run[1..], u)
  {
    forall i | 0 <= i < |run[1..]| && Acts(run[1..][i], Worker(u))
      ensures run[1..][i].Work?
    {
      assert run[1..][i] == run[i + 1];
    }
  }

  lemma StepOfOne(s: Shared, step: Step, u: Tid)
    requires Known(s) && Enabled(s, step) && u in s.alone && (Acts(step, Worker(u)) ==> step.Work?)
    ensures var s' := Apply(s, step);
            && Working(s, s', u) == true && s'.alone[u] == if step.Work? && step.u == u then step.write(s.alone[u]) else s.alone[u]
  {
    match step {
      case Obtain(_, _, _, _) =>
      case Work(_, _) =>
      case Issue(_, _, _) =>
      case Use(_, _) =>
      case Withdraw(_, _) =>
      case Return(_, _, _) =>
      case Move(_, _, _) =>
    }
  }

  lemma FillLocal(write: Memory -> Memory, r: Raw, lo: int, n: nat, value: Byte)
    requires r.lo <= lo && lo + n <= r.hi && forall m :: write(m) == Fill(m, lo, n, value)
    ensures Local(write, r)
  {}

  lemma HeaderLocal(write: Memory -> Memory, r: Raw, h: int, size: nat, mark: Mark)
    requires r.lo <= h && h + 16 <= r.hi && forall m :: write(m) == PutHeader(m, h, size, mark)
    ensures Local(write, r)
  {}

  lemma StateLocal(write: Memory -> Memory, r: Raw, h: int, state: nat)
    requires r.lo <= h && h + 16 <= r.hi && forall m :: write(m) == SetState(m, h, state)
    ensures Local(write, r)
  {}

  lemma GuardsLocal(write: Memory -> Memory, r: Raw, user: int, size: nat)
    requires r.lo + FRONT_GUARD <= user && user + size + REAR_GUARD <= r.hi && forall m :: write(m) == Guarding(m, user, size)
    ensures Local(write, r)
  {}

  /** The writes of deallocate, as one: poison, and the marks that say freed. */
  lemma WipeLocal(write: Memory -> Memory, m: Memory, p: int, k: Block, poison: bool)
    requires BlockOK(m, p, k) && forall n :: write(n) == Wiped(n, p, k, poison)
    ensures Local(write, k.raw)
  {
    UserInside(m, p, k);
  }

  /** The writes of allocate: the universal header, guards and poison as configured. */
  ghost predicate AllocateWrites(ws: seq<Memory -> Memory>, r: Raw, size: nat, guards: bool, poison: bool) {
    var u := r.lo + HEADER_SIZE;
    && |ws| == 3
    && (forall m :: ws[0](m) == PutHeader(m, r.lo, size + Dress(guards), RawMark(r.owner, ALLOCATED)))
    && (forall m :: ws[1](m) == Dressed(m, u, size, guards))
    && (forall m :: ws[2](m) == Poisoned(m, DressedAt(u, guards), size, poison, ALLOC_POISON))
  }

  /** The raw block is one for a request of asked bytes. */
  ghost predicate Suits(r: Raw, asked: nat) {
    && r.owner == Route(asked) && r.lo > 0 && r.lo % 16 == 0 && r.hi <= ADDRESS_LIMIT && r.lo + HEADER_SIZE + asked <= r.hi
    && (r.owner.Medium? ==> r.hi <= r.lo + HEADER_SIZE + asked + 47)
  }

  lemma Obtained(s: Shared, u: Tid, asked: nat, answer: Answer, grant: Grant)
    requires Inv(s) == true && Enabled(s, Obtain(u, asked, answer, grant))
    ensures var s1 := Apply(s, Obtain(u, asked, answer, grant));
            && Inv(s1) == true && u in s1.alone && Worker(u) in s1.owners
            && s1.owners[Worker(u)] == Given(s.tiers, asked, grant) && Suits(Given(s.tiers, asked, grant), asked) == true
  {
    StepKeepsInv(s, Obtain(u, asked, answer, grant));
    GivenFits(s.tiers, asked, grant);
  }

  /** Once a thread has made the writes of allocate, among any steps of the others, it may hand
      the block over, and what it then does not share with anyone is a whole block. */
  lemma AllocateFinishes(s: Shared, run: seq<Step>, u: Tid, size: nat, guards: bool, poison: bool)
    requires Inv(s) == true && size >= 1 && u in s.alone && Worker(u) in s.owners
    requires Suits(s.owners[Worker(u)], size + Dress(guards)) == true && Legal(s, run) && OnlyWrites(run, u)
    requires AllocateWrites(Writes(run, u), s.owners[Worker(u)], size, guards, poison) == true
    ensures var s', r := Exec(s, run), s.owners[Worker(u)];
            var p, k := DressedAt(r.lo + HEADER_SIZE, guards), DressedBlock(size, r, guards);
            Enabled(s', Issue(u, p, k)) && BlockOK(s'.mem, p, k) == true && p !in s'.live
  {
    var s', r := Exec(s, run), s.owners[Worker(u)];
    var p, k := DressedAt(r.lo + HEADER_SIZE, guards), DressedBlock(size, r, guards);
    RanAlone(s, run, u);
    RunKeepsInv(s, run);
    AloneIsBlock(s.alone[u], Writes(run, u), r, size, guards, poison);
    IssueIsNew(s', u, p, k);
  }

  /** The writes of alignedAllocate with a shim: the universal header, the shim and poison. */
  ghost predicate AlignWrites(ws: seq<Memory -> Memory>, r: Raw, p: int, size: nat, alignment: nat, poison: bool) {
    var u := r.lo + HEADER_SIZE;
    && |ws| == 3 && p >= u
    && (forall m :: ws[0](m) == PutHeader(m, r.lo, size + alignment, RawMark(r.owner, ALLOCATED)))
    && (forall m :: ws[1](m) == Shimming(m, p, size, p - u))
    && (forall m :: ws[2](m) == Poisoned(m, p, size, poison, ALLOC_POISON))
  }

  /** The same for a block behind a shim. */
  lemma AlignedFinishes(s: Shared, run: seq<Step>, u: Tid, p: int, size: nat, alignment: nat, poison: bool)
    requires Inv(s) == true && size >= 1 && u in s.alone && Worker(u) in s.owners
    requires IsPowerOfTwo(alignment) && 16 < alignment <= MAX_ALIGNMENT
    requires Suits(s.owners[Worker(u)], size + alignment) == true && Legal(s, run) && OnlyWrites(run, u)
    requires s.owners[Worker(u)].lo > 0 && p == AlignedUser(s.owners[Worker(u)].lo + HEADER_SIZE, alignment)
    requires AlignWrites(Writes(run, u), s.owners[Worker(u)], p, size, alignment, poison) == true
    ensures var s', k := Exec(s, run), Block(size, Aligned, s.owners[Worker(u)], size + alignment);
            Enabled(s', Issue(u, p, k)) && BlockOK(s'.mem, p, k) == true && p !in s'.live
  {
    var s', r := Exec(s, run), s.owners[Worker(u)];
    RanAlone(s, run, u);
    RunKeepsInv(s, run);
    ShimPlaced(r, p, size, alignment);
    AloneIsAligned(s.alone[u], Writes(run, u), r, p, size, alignment, poison);
    IssueIsNew(s', u, p, Block(size, Aligned, r, size + alignment));
  }

  /** Where a shim of that alignment lets the block begin. */
  ghost predicate ShimPlace(r: Raw, p: int, alignment: nat) {
    var offset := p - (r.lo + HEADER_SIZE);
    16 <= offset <= alignment && offset % 16 == 0 && offset < 0x1_0000_0000
  }

  lemma ShimPlaced(r: Raw, p: int, size: nat, alignment: nat)
    requires IsPowerOfTwo(alignment) && 16 < alignment <= MAX_ALIGNMENT && Suits(r, size + alignment) == true
    requires r.lo > 0 && p == AlignedUser(r.lo + HEADER_SIZE, alignment)
    ensures ShimPlace(r, p, alignment) == true
  {
    AlignedOffset(r.lo + HEADER_SIZE, alignment);
  }

  lemma AloneIsAligned(m: Memory, ws: seq<Memory -> Memory>, r: Raw, p: int, size: nat, alignment: nat, poison: bool)
    requires size >= 1 && AlignWrites(ws, r, p, size, alignment, poison) == true && Suits(r, size + alignment) == true
    requires ShimPlace(r, p, alignment) == true
    ensures BlockOK(Written(m, ws), p, Block(size, Aligned, r, size + alignment)) == true
  {
    WrittenThree(m, ws);
    HeaderBlock(m, ws[0](m), r, size + alignment);
    ShimBlock(ws[0](m), r, p, size, alignment);
    PoisonBlock(ws[1](ws[0](m)), Written(m, ws), p, Block(size, Aligned, r, size + alignment), poison);
  }

  lemma AloneIsBlock(m: Memory, ws: seq<Memory -> Memory>, r: Raw, size: nat, guards: bool, poison: bool)
    requires size >= 1 && AllocateWrites(ws, r, size, guards, poison) == true && Suits(r, size + Dress(guards)) == true
    ensures BlockOK(Written(m, ws), DressedAt(r.lo + HEADER_SIZE, guards), DressedBlock(size, r, guards)) == true
  {
    WrittenThree(m, ws);
    HeaderBlock(m, ws[0](m), r, size + Dress(guards));
    DressBlock(ws[0](m), ws[1](ws[0](m)), r, size, guards);
    PoisonBlock(ws[1](ws[0](m)), Written(m, ws), DressedAt(r.lo + HEADER_SIZE, guards), DressedBlock(size, r, guards), poison);
  }

  /** From m to m' the header is written. */
  lemma HeaderBlock(m: Memory, m': Memory, r: Raw, asked: nat)
    requires asked >= 1 && Suits(r, asked) == true && m' == PutHeader(m, r.lo, asked, RawMark(r.owner, ALLOCATED))
    ensures BlockOK(m', r.lo + HEADER_SIZE, Block(asked, Plain, r, asked)) == true
  {
    PlainBlock(m, r, asked);
  }

  lemma DressBlock(m: Memory, m': Memory, r: Raw, size: nat, guards: bool)
    requires size >= 1 && m' == Dressed(m, r.lo + HEADER_SIZE, size, guards)
    requires BlockOK(m, r.lo + HEADER_SIZE, Block(size + Dress(guards), Plain, r, size + Dress(guards))) == true
    ensures BlockOK(m', DressedAt(r.lo + HEADER_SIZE, guards), DressedBlock(size, r, guards)) == true
  {
    DressedOK(m, r, size, guards);
  }

  lemma ShimBlock(m: Memory, r: Raw, p: int, size: nat, alignment: nat)
    requires size >= 1 && ShimPlace(r, p, alignment) == true
    requires BlockOK(m, r.lo + HEADER_SIZE, Block(size + alignment, Plain, r, size + alignment)) == true
    ensures BlockOK(Shimming(m, p, size, p - (r.lo + HEADER_SIZE)), p, Block(size, Aligned, r, size + alignment)) == true
  {
    AlignedBlock(m, r, size + alignment, p, size);
  }

  lemma PoisonBlock(m: Memory, m': Memory, p: int, k: Block, poison: bool)
    requires BlockOK(m, p, k) == true && m' == Poisoned(m, p, k.size, poison, ALLOC_POISON)
    ensures BlockOK(m', p, k) == true
  {
    PoisonKeeps(m, p, k, poison, ALLOC_POISON);
  }

  lemma WrittenThree(m: Memory, ws: seq<Memory -> Memory>)
    requires |ws| == 3
    ensures Written(m, ws) == ws[2](ws[1](ws[0](m)))
  {
    var m1 := ws[0](m);
    var m2 := ws[1](m1);
    assert Written(m, ws) == Written(m1, ws[1..]);
    assert Written(m1, ws[1..]) == Written(m2, ws[1..][1..]);
    assert ws[1..][1..] == [ws[2]];
    assert Written(m2, [ws[2]]) == ws[2](m2);
  }
}
