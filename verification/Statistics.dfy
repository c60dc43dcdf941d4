/** The statistics collector as a protocol of single atomic steps, taken by any
    number of threads in any order. */
module Statistics {
  import opened Sums

  datatype Counters = Counters(
    allocationCount: int, freeCount: int, activeAllocations: int, liveRequested: int,
    liveReserved: int, peakUsage: int, allocatedBytes: int, freedBytes: int)

  const ZERO := Counters(0, 0, 0, 0, 0, 0, 0, 0)

  /** Where the record of one allocation stands. A thread inside recordAllocation has
      done some of its five additions, then samples the usage, reads the peak and
      retries its exchange; a thread inside recordFree has done some of its five steps. */
  datatype Phase =
    | Recording(done: nat)
    | Sampled(current: int)
    | Comparing(current: int, peak: int)
    | Held
    | Freeing(done: nat)

  /** An allocation with its requested and reserved bytes. */
  datatype Op = Op(requested: nat, reserved: nat, phase: Phase)

  type Id = nat

  datatype State = State(c: Counters, ops: map<Id, Op>)

  const INITIAL := State(ZERO, map[])

  // ------------------------------------------------------------------------ steps

  datatype Step =
    | Begin(id: Id, requested: nat, reserved: nat)
    | Add(id: Id)
    | Sample(id: Id)
    | LoadPeak(id: Id)
    | Stop(id: Id)
    | Exchange(id: Id, spurious: bool)
    | BeginFree(id: Id)
    | Subtract(id: Id)

  /** The k-th fetch_add of recordAllocation. */
  function Bump(c: Counters, k: nat, op: Op): Counters {
    match k
    case 0 => c.(allocationCount := c.allocationCount + 1)
    case 1 => c.(allocatedBytes := c.allocatedBytes + op.requested)
    case 2 => c.(liveRequested := c.liveRequested + op.requested)
    case 3 => c.(liveReserved := c.liveReserved + op.reserved)
    case _ => c.(activeAllocations := c.activeAllocations + 1)
  }

  /** The k-th step of recordFree. */
  function Drop(c: Counters, k: nat, op: Op): Counters {
    match k
    case 0 => c.(freeCount := c.freeCount + 1)
    case 1 => c.(freedBytes := c.freedBytes + op.requested)
    case 2 => c.(liveRequested := c.liveRequested - op.requested)
    case 3 => c.(liveReserved := c.liveReserved - op.reserved)
    case _ => c.(activeAllocations := c.activeAllocations - 1)
  }

  predicate Enabled(s: State, step: Step) {
    match step
    case Begin(id, _, _) => id !in s.ops
    case Add(id) => id in s.ops && s.ops[id].phase.Recording? && s.ops[id].phase.done < 5
    case Sample(id) => id in s.ops && s.ops[id].phase == Recording(5)
    case LoadPeak(id) => id in s.ops && s.ops[id].phase.Sampled?
    case Stop(id) =>
      id in s.ops && s.ops[id].phase.Comparing? && s.ops[id].phase.current <= s.ops[id].phase.peak
    case Exchange(id, _) =>
      id in s.ops && s.ops[id].phase.Comparing? && s.ops[id].phase.current > s.ops[id].phase.peak
    case BeginFree(id) => id in s.ops && s.ops[id].phase.Held?
    case Subtract(id) => id in s.ops && s.ops[id].phase.Freeing? && s.ops[id].phase.done < 5
  }

  function SetPhase(s: State, id: Id, phase: Phase): State
    requires id in s.ops
  {
    s.(ops := s.ops[id := s.ops[id].(phase := phase)])
  }

  function Apply(s: State, step: Step): State
    requires Enabled(s, step)
  {
    match step
    case Begin(id, requested, reserved) =>
      s.(ops := s.ops[id := Op(requested, reserved, Recording(0))])
    case Add(id) =>
      var k := s.ops[id].phase.done;
      SetPhase(s, id, Recording(k + 1)).(c := Bump(s.c, k, s.ops[id]))
    case Sample(id) => SetPhase(s, id, Sampled(s.c.liveRequested))
    case LoadPeak(id) => SetPhase(s, id, Comparing(s.ops[id].phase.current, s.c.peakUsage))
    case Stop(id) => SetPhase(s, id, Held)
    case Exchange(id, spurious) =>
      var p := s.ops[id].phase;
      if !spurious && s.c.peakUsage == p.peak then
        SetPhase(s, id, Held).(c := s.c.(peakUsage := p.current))
      else
        SetPhase(s, id, Comparing(p.current, s.c.peakUsage))
    case BeginFree(id) => SetPhase(s, id, Freeing(0))
    case Subtract(id) =>
      var k := s.ops[id].phase.done;
      var c := Drop(s.c, k, s.ops[id]);
      if k == 4 then State(c, s.ops - {id}) else SetPhase(s, id, Freeing(k + 1)).(c := c)
  }

  // -------------------------------------------------------------------- invariant

  /** The k-th quantity that allocations raise and frees lower. */
  function Net(c: Counters, k: nat): int {
    match k
    case 0 => c.allocationCount - c.freeCount
    case 1 => c.allocatedBytes - c.freedBytes
    case 2 => c.liveRequested
    case 3 => c.liveReserved
    case _ => c.activeAllocations
  }

  /** What one allocation contributes to it, once counted. */
  function Amount(op: Op, k: nat): nat {
    if k == 1 || k == 2 then op.requested else if k == 3 then op.reserved else 1
  }

  /** The k-th addition has happened and the k-th subtraction has not. */
  predicate Counted(phase: Phase, k: nat) {
    match phase
    case Recording(done) => done > k
    case Freeing(done) => done <= k
    case _ => true
  }

  ghost function Weight(ops: map<Id, Op>, k: nat): Id -> int {
    id => if id in ops && Counted(ops[id].phase, k) then Amount(ops[id], k) else 0
  }

  ghost predicate Balanced(s: State) {
    forall k {:trigger Net(s.c, k)} :: 0 <= k < 5 ==> Net(s.c, k) == Sum(s.ops.Keys, Weight(s.ops, k))
  }

  ghost predicate PhasesOK(s: State) {
    forall id :: id in s.ops ==>
      match s.ops[id].phase
      case Recording(done) => done <= 5
      case Freeing(done) => done < 5
      case Comparing(_, peak) => peak <= s.c.peakUsage
      case _ => true
  }

  /** The record of id is still going to make the peak cover the usage. */
  predicate Covers(op: Op, usage: int) {
    match op.phase
    case Recording(done) => done >= 3
    case Sampled(current) => current >= usage
    case Comparing(current, _) => current >= usage
    case _ => false
  }

  /** Either the peak covers the usage, or a thread in the middle of recordAllocation
      will see to it. */
  ghost predicate PeakCovered(s: State) {
    s.c.liveRequested <= s.c.peakUsage ||
    exists id :: id in s.ops && Covers(s.ops[id], s.c.liveRequested)
  }

  ghost predicate Inv(s: State) {
    Balanced(s) && PhasesOK(s) && PeakCovered(s)
  }

  lemma BalancedStart()
    ensures Inv(INITIAL)
  {}

  lemma WeightChange(ops: map<Id, Op>, id: Id, op: Op, k: nat)
    requires id in ops
    ensures Sum(ops[id := op].Keys, Weight(ops[id := op], k)) ==
            Sum(ops.Keys, Weight(ops, k)) - Weight(ops, k)(id) + Weight(ops[id := op], k)(id)
  {
    assert ops[id := op].Keys == ops.Keys;
    SumChange(ops.Keys, Weight(ops, k), Weight(ops[id := op], k), id);
  }

  lemma WeightInsert(ops: map<Id, Op>, id: Id, op: Op, k: nat)
    requires id !in ops
    ensures Sum(ops[id := op].Keys, Weight(ops[id := op], k)) ==
            Sum(ops.Keys, Weight(ops, k)) + Weight(ops[id := op], k)(id)
  {
    assert ops[id := op].Keys == ops.Keys + {id};
    SumInsert(ops.Keys, Weight(ops[id := op], k), id);
    SumCongruent(ops.Keys, Weight(ops, k), Weight(ops[id := op], k));
  }

  lemma WeightRemove(ops: map<Id, Op>, id: Id, k: nat)
    requires id in ops
    ensures Sum((ops - {id}).Keys, Weight(ops - {id}, k)) == Sum(ops.Keys, Weight(ops, k)) - Weight(ops, k)(id)
  {
    assert (ops - {id}).Keys == ops.Keys - {id};
    SumRemove(ops.Keys, Weight(ops, k), id);
    SumCongruent(ops.Keys - {id}, Weight(ops - {id}, k), Weight(ops, k));
  }

  lemma StepKeepsBalance(s: State, step: Step)
    requires Balanced(s) && Enabled(s, step)
    ensures Balanced(Apply(s, step))
  {
    var s' := Apply(s, step);
    forall k | 0 <= k < 5
      ensures Net(s'.c, k) == Sum(s'.ops.Keys, Weight(s'.ops, k))
    {
      assert Net(s.c, k) == Sum(s.ops.Keys, Weight(s.ops, k));
      StepMovesSum(s, step, k);
      StepMovesNet(s, step, k);
    }
  }

  lemma StepMovesSum(s: State, step: Step, k: nat)
    requires Enabled(s, step)
    ensures var s' := Apply(s, step);
            Sum(s'.ops.Keys, Weight(s'.ops, k)) ==
            Sum(s.ops.Keys, Weight(s.ops, k)) - Weight(s.ops, k)(step.id) + Weight(s'.ops, k)(step.id)
  {
    var s', id := Apply(s, step), step.id;
    if step.Begin? {
      WeightInsert(s.ops, id, s'.ops[id], k);
    } else if id in s'.ops {
      WeightChange(s.ops, id, s'.ops[id], k);
    } else {
      WeightRemove(s.ops, id, k);
    }
  }

  lemma StepMovesNet(s: State, step: Step, k: nat)
    requires Enabled(s, step) && k < 5
    ensures var s' := Apply(s, step);
            Net(s'.c, k) == Net(s.c, k) - Weight(s.ops, k)(step.id) + Weight(s'.ops, k)(step.id)
  {}

  lemma StepKeepsPhases(s: State, step: Step)
    requires PhasesOK(s) && Enabled(s, step)
    ensures PhasesOK(Apply(s, step))
    ensures Apply(s, step).c.peakUsage >= s.c.peakUsage
  {}

  lemma StepKeepsCover(s: State, step: Step)
    requires PhasesOK(s) && PeakCovered(s) && Enabled(s, step)
    ensures PeakCovered(Apply(s, step))
  {
    var s' := Apply(s, step);
    if s.c.liveRequested > s.c.peakUsage {
      var id :| id in s.ops && Covers(s.ops[id], s.c.liveRequested);
      if id in s'.ops && Covers(s'.ops[id], s'.c.liveRequested) {}
    } else if step.Add? && s.ops[step.id].phase.done == 2 {
      assert Covers(s'.ops[step.id], s'.c.liveRequested);
    }
  }

  // ------------------------------------------------------------------------- runs

  predicate Legal(s: State, run: seq<Step>)
    decreases |run|
  {
    run == [] || (Enabled(s, run[0]) && Legal(Apply(s, run[0]), run[1..]))
  }

  function Exec(s: State, run: seq<Step>): State
    requires Legal(s, run)
    decreases |run|
  {
    if run == [] then s else Exec(Apply(s, run[0]), run[1..])
  }

  predicate Quiescent(s: State) {
    forall id :: id in s.ops ==> s.ops[id].phase.Held?
  }

  lemma {:induction false} RunKeepsInv(s: State, run: seq<Step>)
    requires Inv(s) && Legal(s, run)
    ensures Inv(Exec(s, run))
    ensures Exec(s, run).c.peakUsage >= s.c.peakUsage
    decreases |run|
  {
    if run != [] {
      StepKeepsBalance(s, run[0]);
      StepKeepsPhases(s, run[0]);
      StepKeepsCover(s, run[0]);
      RunKeepsInv(Apply(s, run[0]), run[1..]);
    }
  }

  ghost function Requested(ops: map<Id, Op>): Id -> int {
    id => if id in ops then ops[id].requested else 0
  }

  ghost function Reserved(ops: map<Id, Op>): Id -> int {
    id => if id in ops then ops[id].reserved else 0
  }

  lemma {:induction false} SumOfOnes(s: set<Id>, f: Id -> int)
    requires forall x :: x in s ==> f(x) == 1
    ensures Sum(s, f) == |s|
    decreases s
  {
    if s != {} {
      var x := Pick(s);
      SumRemove(s, f, x);
      SumOfOnes(s - {x}, f);
      assert |s| == |s - {x}| + 1;
    }
  }

  /** Whenever no thread is inside the collector, after any interleaving, the counters
      are those of the live allocations, the byte and call counts agree with them, and
      the peak is at least the usage. */
  lemma QuiescentExact(run: seq<Step>)
    requires Legal(INITIAL, run) && Quiescent(Exec(INITIAL, run))
    ensures var s := Exec(INITIAL, run);
            && s.c.liveRequested == Sum(s.ops.Keys, Requested(s.ops))
            && s.c.liveReserved == Sum(s.ops.Keys, Reserved(s.ops))
            && s.c.activeAllocations == |s.ops|
            && s.c.allocatedBytes - s.c.freedBytes == s.c.liveRequested
            && s.c.allocationCount - s.c.freeCount == s.c.activeAllocations
            && s.c.peakUsage >= s.c.liveRequested >= 0
  {
    BalancedStart();
    RunKeepsInv(INITIAL, run);
    HeldCounters(Exec(INITIAL, run));
  }

  lemma HeldCounters(s: State)
    requires Inv(s) && Quiescent(s)
    ensures s.c.liveRequested == Sum(s.ops.Keys, Requested(s.ops))
    ensures s.c.liveReserved == Sum(s.ops.Keys, Reserved(s.ops))
    ensures s.c.activeAllocations == |s.ops|
    ensures s.c.allocatedBytes - s.c.freedBytes == s.c.liveRequested
    ensures s.c.allocationCount - s.c.freeCount == s.c.activeAllocations
    ensures s.c.peakUsage >= s.c.liveRequested >= 0
  {
    var ids := s.ops.Keys;
    SumCongruent(ids, Weight(s.ops, 1), Requested(s.ops));
    SumCongruent(ids, Weight(s.ops, 2), Requested(s.ops));
    SumCongruent(ids, Weight(s.ops, 3), Reserved(s.ops));
    SumOfOnes(ids, Weight(s.ops, 0));
    SumOfOnes(ids, Weight(s.ops, 4));
    SumNonNegative(ids, Requested(s.ops));
    assert forall k :: 0 <= k < 5 ==> Net(s.c, k) == Sum(ids, Weight(s.ops, k));
    assert Net(s.c, 0) == |ids| && Net(s.c, 4) == |ids|;
    assert Net(s.c, 1) == Net(s.c, 2) && Net(s.c, 3) == Sum(ids, Reserved(s.ops));
  }

  /** No counter that is subtracted from ever goes below zero, whatever is in flight. */
  lemma NeverBelowZero(s: State)
    requires Balanced(s)
    ensures s.c.liveRequested >= 0 && s.c.liveReserved >= 0 && s.c.activeAllocations >= 0
    ensures s.c.freedBytes <= s.c.allocatedBytes && s.c.freeCount <= s.c.allocationCount
  {
    forall k | 0 <= k < 5
      ensures Net(s.c, k) >= 0
    {
      SumNonNegative(s.ops.Keys, Weight(s.ops, k));
    }
    assert Net(s.c, 0) >= 0 && Net(s.c, 1) >= 0 && Net(s.c, 2) >= 0 && Net(s.c, 3) >= 0 && Net(s.c, 4) >= 0;
  }

  // --------------------------------------------------------------- the high-water mark

  /** The largest usage any state of the run had. */
  function HighWater(s: State, run: seq<Step>): int
    requires Legal(s, run)
    decreases |run|
  {
    if run == [] then s.c.liveRequested
    else Max(s.c.liveRequested, HighWater(Apply(s, run[0]), run[1..]))
  }

  /** Nothing in the state exceeds h. */
  ghost predicate AtMost(s: State, h: int) {
    && s.c.peakUsage <= h && s.c.liveRequested <= h
    && forall id :: id in s.ops ==>
         match s.ops[id].phase
         case Sampled(current) => current <= h
         case Comparing(current, _) => current <= h
         case _ => true
  }

  lemma {:induction false} PeakBelowHighWater(s: State, run: seq<Step>, h: int)
    requires Legal(s, run) && AtMost(s, h)
    ensures Exec(s, run).c.peakUsage <= Max(h, HighWater(s, run))
    decreases |run|
  {
    if run != [] {
      var s' := Apply(s, run[0]);
      assert AtMost(s', Max(h, s'.c.liveRequested));
      PeakBelowHighWater(s', run[1..], Max(h, s'.c.liveRequested));
      HighWaterStart(s', run[1..]);
    }
  }

  lemma HighWaterStart(s: State, run: seq<Step>)
    requires Legal(s, run)
    ensures HighWater(s, run) >= s.c.liveRequested
  {}

  /** The reported peak never exceeds the true high-water mark of the usage. */
  lemma PeakNeverOverstates(run: seq<Step>)
    requires Legal(INITIAL, run)
    ensures Exec(INITIAL, run).c.peakUsage <= HighWater(INITIAL, run)
  {
    PeakBelowHighWater(INITIAL, run, 0);
    HighWaterStart(INITIAL, run);
  }

  /** No usage is given back while a thread has added to it and not yet sampled it. */
  predicate SampledBeforeDrop(s: State, run: seq<Step>)
    requires Legal(s, run)
    decreases |run|
  {
    run == [] ||
    (&& (run[0].Subtract? && s.ops[run[0].id].phase.done == 2 ==>
           forall id :: id in s.ops ==> !(s.ops[id].phase.Recording? && s.ops[id].phase.done >= 3))
     && SampledBeforeDrop(Apply(s, run[0]), run[1..]))
  }

  /** The peak, or a thread on its way to it, has reached h. */
  ghost predicate Reaches(s: State, h: int) {
    || h <= s.c.peakUsage
    || exists id :: id in s.ops &&
         match s.ops[id].phase
         case Recording(done) => done >= 3 && h <= s.c.liveRequested
         case Sampled(current) => h <= current
         case Comparing(current, _) => h <= current
         case _ => false
  }

  lemma StepKeepsReach(s: State, step: Step, h: int)
    requires PhasesOK(s) && Enabled(s, step) && Reaches(s, h) && s.c.liveRequested <= h
    requires step.Subtract? && s.ops[step.id].phase.done == 2 ==>
               forall id :: id in s.ops ==> !(s.ops[id].phase.Recording? && s.ops[id].phase.done >= 3)
    ensures Reaches(Apply(s, step), Max(h, Apply(s, step).c.liveRequested))
  {
    var s' := Apply(s, step);
    if h < s'.c.liveRequested {
      assert s'.ops[step.id].phase == Recording(3);
    } else {
      ReachMoves(s, step, h);
    }
  }

  lemma ReachMoves(s: State, step: Step, h: int)
    requires PhasesOK(s) && Enabled(s, step) && Reaches(s, h)
    requires Apply(s, step).c.liveRequested >= s.c.liveRequested ||
             forall id :: id in s.ops ==> !(s.ops[id].phase.Recording? && s.ops[id].phase.done >= 3)
    ensures Reaches(Apply(s, step), h)
  {
    var s' := Apply(s, step);
    if s.c.peakUsage < h {
      var id :| id in s.ops &&
        match s.ops[id].phase
        case Recording(done) => done >= 3 && h <= s.c.liveRequested
        case Sampled(current) => h <= current
        case Comparing(current, _) => h <= current
        case _ => false;
      assert id in s'.ops;
    }
  }

  lemma {:induction false} RunReaches(s: State, run: seq<Step>, h: int)
    requires PhasesOK(s) && Legal(s, run) && SampledBeforeDrop(s, run)
    requires Reaches(s, h) && s.c.liveRequested <= h
    ensures Reaches(Exec(s, run), Max(h, HighWater(s, run)))
    decreases |run|
  {
    if run != [] {
      var s' := Apply(s, run[0]);
      StepKeepsPhases(s, run[0]);
      StepKeepsReach(s, run[0], h);
      RunReaches(s', run[1..], Max(h, s'.c.liveRequested));
      HighWaterStart(s', run[1..]);
    }
  }

  /** When every addition is sampled before anything is given back, the peak reported at
      a quiescent point is exactly the high-water mark. */
  lemma PeakExactWhenSampled(run: seq<Step>)
    requires Legal(INITIAL, run) && SampledBeforeDrop(INITIAL, run) && Quiescent(Exec(INITIAL, run))
    ensures Exec(INITIAL, run).c.peakUsage == HighWater(INITIAL, run)
  {
    RunReaches(INITIAL, run, 0);
    HighWaterStart(INITIAL, run);
    PeakNeverOverstates(run);
  }

  /** The largest usage that a Sample step of the run saw, or h if that is larger. */
  function LargestSample(s: State, run: seq<Step>, h: int): int
    requires Legal(s, run)
    decreases |run|
  {
    if run == [] then h
    else LargestSample(Apply(s, run[0]), run[1..], if run[0].Sample? then Max(h, s.c.liveRequested) else h)
  }

  /** Some Sample step of the run saw exactly h. */
  predicate SampledAt(s: State, run: seq<Step>, h: int)
    requires Legal(s, run)
    decreases |run|
  {
    run != [] &&
    ((run[0].Sample? && s.c.liveRequested == h) || SampledAt(Apply(s, run[0]), run[1..], h))
  }

  /** The sample an operation has taken and not yet brought to the peak is at most h. */
  predicate PendingAtMost(op: Op, h: int) {
    match op.phase
    case Sampled(current) => current <= h
    case Comparing(current, _) => current <= h
    case _ => true
  }

  predicate Pending(op: Op, h: int) {
    op.phase == Sampled(h) || (op.phase.Comparing? && op.phase.current == h)
  }

  /** h is the largest sample: nothing sampled exceeds it, and the peak has it or a thread
      is still bringing it there. */
  ghost predicate Tops(s: State, h: int) {
    && s.c.peakUsage <= h && (forall id :: id in s.ops ==> PendingAtMost(s.ops[id], h))
    && (s.c.peakUsage == h || exists id :: id in s.ops && Pending(s.ops[id], h))
  }

  lemma StepKeepsTop(s: State, step: Step, h: int)
    requires PhasesOK(s) && Enabled(s, step) && Tops(s, h)
    ensures Tops(Apply(s, step), if step.Sample? then Max(h, s.c.liveRequested) else h)
  {
    var s' := Apply(s, step);
    if step.Sample? && h < s.c.liveRequested {
      assert Pending(s'.ops[step.id], s.c.liveRequested);
    } else if s.c.peakUsage < h {
      var id :| id in s.ops && Pending(s.ops[id], h);
      if id == step.id {
        assert !step.Stop? && id in s'.ops;
        assert s'.c.peakUsage == h || Pending(s'.ops[id], h);
      } else {
        assert id in s'.ops && Pending(s'.ops[id], h);
      }
    }
  }

  lemma {:induction false} RunKeepsTop(s: State, run: seq<Step>, h: int)
    requires PhasesOK(s) && Legal(s, run) && Tops(s, h)
    ensures Tops(Exec(s, run), LargestSample(s, run, h))
    decreases |run|
  {
    if run != [] {
      StepKeepsPhases(s, run[0]);
      StepKeepsTop(s, run[0], h);
      RunKeepsTop(Apply(s, run[0]), run[1..], if run[0].Sample? then Max(h, s.c.liveRequested) else h);
    }
  }

  lemma {:induction false} LargestIsSampled(s: State, run: seq<Step>, h: int)
    requires Legal(s, run)
    ensures LargestSample(s, run, h) >= h
    ensures LargestSample(s, run, h) == h || SampledAt(s, run, LargestSample(s, run, h))
    ensures forall x :: SampledAt(s, run, x) ==> x <= LargestSample(s, run, h)
    decreases |run|
  {
    if run != [] {
      LargestIsSampled(Apply(s, run[0]), run[1..], if run[0].Sample? then Max(h, s.c.liveRequested) else h);
    }
  }

  /** At every quiescent point the peak is exactly the largest usage that was sampled. */
  lemma PeakIsLargestSample(run: seq<Step>)
    requires Legal(INITIAL, run) && Quiescent(Exec(INITIAL, run))
    ensures Exec(INITIAL, run).c.peakUsage == LargestSample(INITIAL, run, 0)
  {
    RunKeepsTop(INITIAL, run, 0);
  }

  /** So the peak is the high-water mark if and only if some sample was taken at the mark,
      or there was no usage at all. */
  lemma PeakExactIff(run: seq<Step>)
    requires Legal(INITIAL, run) && Quiescent(Exec(INITIAL, run))
    ensures Exec(INITIAL, run).c.peakUsage == HighWater(INITIAL, run) <==>
            HighWater(INITIAL, run) == 0 || SampledAt(INITIAL, run, HighWater(INITIAL, run))
  {
    PeakIsLargestSample(run);
    LargestIsSampled(INITIAL, run, 0);
    PeakNeverOverstates(run);
  }

  // -------------------------------------------------------------- calls that run alone

  /** What recordAllocation does to the counters when it runs alone. */
  function Recorded(c: Counters, requested: nat, reserved: nat): Counters {
    c.(allocationCount := c.allocationCount + 1, allocatedBytes := c.allocatedBytes + requested,
       liveRequested := c.liveRequested + requested, liveReserved := c.liveReserved + reserved,
       activeAllocations := c.activeAllocations + 1,
       peakUsage := Max(c.peakUsage, c.liveRequested + requested))
  }

  /** What recordFree does to the counters when it runs alone. */
  function Freed(c: Counters, requested: nat, reserved: nat): Counters {
    c.(freeCount := c.freeCount + 1, freedBytes := c.freedBytes + requested,
       liveRequested := c.liveRequested - requested, liveReserved := c.liveReserved - reserved,
       activeAllocations := c.activeAllocations - 1)
  }

  /** A run from s to t. */
  ghost predicate Leads(s: State, run: seq<Step>, t: State) {
    Legal(s, run) && Exec(s, run) == t
  }

  lemma LeadsOn(s: State, run: seq<Step>, t: State, step: Step)
    requires Leads(s, run, t) && Enabled(t, step)
    ensures Leads(s, run + [step], Apply(t, step))
    ensures HighWater(s, run + [step]) == Max(HighWater(s, run), Apply(t, step).c.liveRequested)
    decreases |run|
  {
    if run == [] {
      assert (run + [step])[1..] == [];
    } else {
      assert (run + [step])[0] == run[0] && (run + [step])[1..] == run[1..] + [step];
      LeadsOn(Apply(s, run[0]), run[1..], t, step);
    }
  }

  /** The five additions of recordAllocation by id. */
  lemma FiveAdds(s: State, run: seq<Step>, t: State, id: Id) returns (run': seq<Step>, t': State)
    requires Leads(s, run, t) && id in t.ops && t.ops[id].phase == Recording(0)
    ensures Leads(s, run', t')
    ensures var op := t.ops[id];
            t' == State(t.c.(allocationCount := t.c.allocationCount + 1,
                             allocatedBytes := t.c.allocatedBytes + op.requested,
                             liveRequested := t.c.liveRequested + op.requested,
                             liveReserved := t.c.liveReserved + op.reserved,
                             activeAllocations := t.c.activeAllocations + 1),
                        t.ops[id := op.(phase := Recording(5))])
  {
    run', t' := run, t;
    var k := 0;
    while k < 5
      invariant 0 <= k <= 5 && Leads(s, run', t')
      invariant t'.ops == t.ops[id := t.ops[id].(phase := Recording(k))]
      invariant t'.c == Bumped(t.c, k, t.ops[id])
    {
      LeadsOn(s, run', t', Add(id));
      run', t' := run' + [Add(id)], Apply(t', Add(id));
      k := k + 1;
    }
    BumpedFive(t.c, t.ops[id]);
  }

  lemma BumpedFive(c: Counters, op: Op)
    ensures Bumped(c, 5, op) ==
            c.(allocationCount := c.allocationCount + 1, allocatedBytes := c.allocatedBytes + op.requested,
               liveRequested := c.liveRequested + op.requested, liveReserved := c.liveReserved + op.reserved,
               activeAllocations := c.activeAllocations + 1)
  {
    assert Bumped(c, 1, op) == Bump(c, 0, op);
    assert Bumped(c, 2, op) == Bump(Bumped(c, 1, op), 1, op);
    assert Bumped(c, 3, op) == Bump(Bumped(c, 2, op), 2, op);
    assert Bumped(c, 4, op) == Bump(Bumped(c, 3, op), 3, op);
  }

  lemma DroppedFive(c: Counters, op: Op)
    ensures Drop(Dropped(c, 4, op), 4, op) == Freed(c, op.requested, op.reserved)
  {
    assert Dropped(c, 1, op) == Drop(c, 0, op);
    assert Dropped(c, 2, op) == Drop(Dropped(c, 1, op), 1, op);
    assert Dropped(c, 3, op) == Drop(Dropped(c, 2, op), 2, op);
    assert Dropped(c, 4, op) == Drop(Dropped(c, 3, op), 3, op);
  }

  function Bumped(c: Counters, k: nat, op: Op): Counters {
    if k == 0 then c else Bump(Bumped(c, k - 1, op), k - 1, op)
  }

  /** A call of recordAllocation with nothing in between records exactly once and
      raises the peak to the new usage if that is higher. */
  lemma SoloRecord(s: State, id: Id, requested: nat, reserved: nat) returns (run: seq<Step>)
    requires id !in s.ops
    ensures Leads(s, run, State(Recorded(s.c, requested, reserved), s.ops[id := Op(requested, reserved, Held)]))
  {
    LeadsOn(s, [], s, Begin(id, requested, reserved));
    run := [Begin(id, requested, reserved)];
    assert [] + [Begin(id, requested, reserved)] == run;
    var t := Apply(s, Begin(id, requested, reserved));
    run, t := FiveAdds(s, run, t, id);
    LeadsOn(s, run, t, Sample(id));
    run, t := run + [Sample(id)], Apply(t, Sample(id));
    LeadsOn(s, run, t, LoadPeak(id));
    run, t := run + [LoadPeak(id)], Apply(t, LoadPeak(id));
    var last := if t.ops[id].phase.current <= t.ops[id].phase.peak then Stop(id) else Exchange(id, false);
    LeadsOn(s, run, t, last);
    run, t := run + [last], Apply(t, last);
    assert t.ops == s.ops[id := Op(requested, reserved, Held)];
  }

  function Dropped(c: Counters, k: nat, op: Op): Counters {
    if k == 0 then c else Drop(Dropped(c, k - 1, op), k - 1, op)
  }

  /** A call of recordFree with nothing in between undoes exactly that allocation. */
  lemma SoloFree(s: State, id: Id) returns (run: seq<Step>)
    requires id in s.ops && s.ops[id].phase.Held?
    ensures Leads(s, run, State(Freed(s.c, s.ops[id].requested, s.ops[id].reserved), s.ops - {id}))
  {
    LeadsOn(s, [], s, BeginFree(id));
    run := [BeginFree(id)];
    assert [] + [BeginFree(id)] == run;
    var t := Apply(s, BeginFree(id));
    var k := 0;
    while k < 4
      invariant 0 <= k <= 4 && Leads(s, run, t)
      invariant t == State(Dropped(s.c, k, s.ops[id]), s.ops[id := s.ops[id].(phase := Freeing(k))])
    {
      LeadsOn(s, run, t, Subtract(id));
      run, t := run + [Subtract(id)], Apply(t, Subtract(id));
      k := k + 1;
    }
    LeadsOn(s, run, t, Subtract(id));
    run := run + [Subtract(id)];
    assert t.ops - {id} == s.ops - {id};
    DroppedFive(s.c, s.ops[id]);
  }

  // ------------------------------------------------------- where the promise ends

  lemma Overlap(s: State, run: seq<Step>, t: State, steps: seq<Step>, k: nat, u: State) returns (run': seq<Step>)
    requires Leads(s, run, t) && Leads(t, steps, u) && k == |steps|
    ensures Leads(s, run', u) && HighWater(s, run') == Max(HighWater(s, run), HighWater(t, steps))
    decreases k
  {
    if k == 0 {
      run' := run;
      HighWaterEnd(s, run);
    } else {
      LeadsOn(s, run, t, steps[0]);
      HighWaterEnd(s, run);
      HighWaterStart(Apply(t, steps[0]), steps[1..]);
      run' := Overlap(s, run + [steps[0]], Apply(t, steps[0]), steps[1..], k - 1, u);
    }
  }

  lemma HighWaterEnd(s: State, run: seq<Step>)
    requires Legal(s, run)
    ensures HighWater(s, run) >= Exec(s, run).c.liveRequested
    decreases |run|
  {
    if run != [] { HighWaterEnd(Apply(s, run[0]), run[1..]); }
  }

  /** Without that order the peak can fall short of the high-water mark: an allocation
      of 10 is added while 5 are in use, the 5 are freed before it samples, and the peak
      stays at 10 although 15 were in use. */
  lemma PeakCanUnderstate() returns (run: seq<Step>)
    ensures Legal(INITIAL, run) && Quiescent(Exec(INITIAL, run))
    ensures Exec(INITIAL, run).c.peakUsage == 10 && HighWater(INITIAL, run) >= 15
  {
    run := SoloRecord(INITIAL, 0, 5, 5);
    var t := State(Recorded(ZERO, 5, 5), map[0 := Op(5, 5, Held)]);
    assert INITIAL.ops[0 := Op(5, 5, Held)] == t.ops;
    var begin := [Begin(1, 10, 10), Add(1), Add(1), Add(1)];
    var t1 := State(Counters(2, 0, 1, 15, 5, 5, 15, 0), map[0 := Op(5, 5, Held), 1 := Op(10, 10, Recording(3))]);
    FirstOverlap(t, t1);
    run := Overlap(INITIAL, run, t, begin, 4, t1);
    assert HighWater(INITIAL, run) >= 15 by { HighWaterEnd(INITIAL, run); }
    var h := HighWater(INITIAL, run);
    var t2 := State(Counters(2, 1, 0, 10, 0, 5, 15, 5), map[1 := Op(10, 10, Recording(3))]);
    run := FreeMeanwhile(INITIAL, run, t1, t2);
    run := FinishSecond(INITIAL, run, t2);
  }

  /** Between quiescent points the counters need not agree with each other: usage above the
      peak, and fewer active allocations than allocations less frees. */
  lemma SnapshotCanDisagree() returns (run: seq<Step>)
    ensures Legal(INITIAL, run)
    ensures var c := Exec(INITIAL, run).c;
            c.liveRequested > c.peakUsage && c.activeAllocations < c.allocationCount - c.freeCount
  {
    run := SoloRecord(INITIAL, 0, 5, 5);
    var t := State(Recorded(ZERO, 5, 5), map[0 := Op(5, 5, Held)]);
    assert INITIAL.ops[0 := Op(5, 5, Held)] == t.ops;
    var t1 := State(Counters(2, 0, 1, 15, 5, 5, 15, 0), map[0 := Op(5, 5, Held), 1 := Op(10, 10, Recording(3))]);
    FirstOverlap(t, t1);
    run := Overlap(INITIAL, run, t, [Begin(1, 10, 10), Add(1), Add(1), Add(1)], 4, t1);
  }

  lemma FirstOverlap(t: State, t1: State)
    requires t == State(Recorded(ZERO, 5, 5), map[0 := Op(5, 5, Held)])
    requires t1 == State(Counters(2, 0, 1, 15, 5, 5, 15, 0), map[0 := Op(5, 5, Held), 1 := Op(10, 10, Recording(3))])
    ensures Leads(t, [Begin(1, 10, 10), Add(1), Add(1), Add(1)], t1)
  {
    var run := [Begin(1, 10, 10), Add(1), Add(1), Add(1)];
    var a := Apply(t, run[0]);
    var b := Apply(a, run[1]);
    var c := Apply(b, run[2]);
    assert Apply(c, run[3]) == t1;
    assert run[1..][1..][1..] == [Add(1)] && run[1..][1..][1..][1..] == [];
  }

  lemma FreeMeanwhile(s: State, run: seq<Step>, t1: State, t2: State) returns (run': seq<Step>)
    requires Leads(s, run, t1)
    requires t1 == State(Counters(2, 0, 1, 15, 5, 5, 15, 0), map[0 := Op(5, 5, Held), 1 := Op(10, 10, Recording(3))])
    requires t2 == State(Counters(2, 1, 0, 10, 0, 5, 15, 5), map[1 := Op(10, 10, Recording(3))])
    ensures Leads(s, run', t2) && HighWater(s, run') >= HighWater(s, run)
  {
    WithoutFirst(t1.ops[0], t1.ops[1]);
    assert t2 == State(Freed(t1.c, 5, 5), t1.ops - {0});
    var free := SoloFree(t1, 0);
    run' := Overlap(s, run, t1, free, |free|, t2);
  }

  lemma WithoutFirst(a: Op, b: Op)
    ensures map[0 := a, 1 := b] - {0} == map[1 := b]
  {}

  lemma FinishSecond(s: State, run: seq<Step>, t2: State) returns (run': seq<Step>)
    requires Leads(s, run, t2)
    requires t2 == State(Counters(2, 1, 0, 10, 0, 5, 15, 5), map[1 := Op(10, 10, Recording(3))])
    ensures Legal(s, run') && Quiescent(Exec(s, run')) && Exec(s, run').c.peakUsage == 10
    ensures HighWater(s, run') >= HighWater(s, run)
  {
    var t := t2;
    run' := run;
    LeadsOn(s, run', t, Add(1));
    run', t := run' + [Add(1)], Apply(t, Add(1));
    LeadsOn(s, run', t, Add(1));
    run', t := run' + [Add(1)], Apply(t, Add(1));
    LeadsOn(s, run', t, Sample(1));
    run', t := run' + [Sample(1)], Apply(t, Sample(1));
    LeadsOn(s, run', t, LoadPeak(1));
    run', t := run' + [LoadPeak(1)], Apply(t, LoadPeak(1));
    LeadsOn(s, run', t, Exchange(1, false));
    run', t := run' + [Exchange(1, false)], Apply(t, Exchange(1, false));
  }
}
