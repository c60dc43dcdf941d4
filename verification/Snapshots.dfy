/** What snapshot can see: its loads are separate steps, and operations may be under way
    at each of them. */
module Snapshots {
  import opened Sums
  import opened Statistics

  // ------------------------------------------------------------- operations under way

  /** The records that have made addition j and not yet addition k. */
  ghost function Begun(s: State, j: nat, k: nat): set<Id> {
    set id | id in s.ops && s.ops[id].phase.Recording? && j < s.ops[id].phase.done <= k
  }

  /** The frees that have made subtraction j and not yet subtraction k. */
  ghost function Ending(s: State, j: nat, k: nat): set<Id> {
    set id | id in s.ops && s.ops[id].phase.Freeing? && j < s.ops[id].phase.done <= k
  }

  /** Two sums whose terms differ on two disjoint sets only. */
  lemma {:induction false} SumGap(s: set<Id>, f: Id -> int, g: Id -> int, a: set<Id>, b: set<Id>, w: Id -> int)
    requires a <= s && b <= s && a !! b
    requires forall x :: x in a ==> f(x) - g(x) == w(x)
    requires forall x :: x in b ==> g(x) - f(x) == w(x)
    requires forall x :: x in s && x !in a && x !in b ==> f(x) == g(x)
    ensures Sum(s, f) - Sum(s, g) == Sum(a, w) - Sum(b, w)
    decreases s
  {
    if s == {} {
      assert a == {} && b == {};
    } else {
      var x := Pick(s);
      SumRemove(s, f, x);
      SumRemove(s, g, x);
      if x in a { SumRemove(a, w, x); }
      if x in b { SumRemove(b, w, x); }
      assert x !in a ==> a - {x} == a;
      assert x !in b ==> b - {x} == b;
      SumGap(s - {x}, f, g, a - {x}, b - {x}, w);
    }
  }

  /** The j-th and the k-th quantity differ by exactly what is under way between them. */
  lemma LagExact(s: State, j: nat, k: nat, w: Id -> int)
    requires Balanced(s) && PhasesOK(s) && j < k < 5
    requires forall id :: id in s.ops ==> w(id) == Amount(s.ops[id], j) == Amount(s.ops[id], k)
    ensures Net(s.c, j) - Net(s.c, k) == Sum(Begun(s, j, k), w) - Sum(Ending(s, j, k), w)
  {
    SumGap(s.ops.Keys, Weight(s.ops, j), Weight(s.ops, k), Begun(s, j, k), Ending(s, j, k), w);
    assert Net(s.c, j) == Sum(s.ops.Keys, Weight(s.ops, j)) && Net(s.c, k) == Sum(s.ops.Keys, Weight(s.ops, k));
  }

  /** The count of active allocations lags by the records less the frees under way. */
  lemma CountLag(s: State)
    requires Balanced(s) && PhasesOK(s)
    ensures s.c.allocationCount - s.c.freeCount - s.c.activeAllocations == |Begun(s, 0, 4)| - |Ending(s, 0, 4)|
  {
    var one := (id: Id) => 1;
    LagExact(s, 0, 4, one);
    SumOfOnes(Begun(s, 0, 4), one);
    SumOfOnes(Ending(s, 0, 4), one);
    assert Net(s.c, 0) == s.c.allocationCount - s.c.freeCount && Net(s.c, 4) == s.c.activeAllocations;
  }

  /** The usage lags by the bytes under way. */
  lemma UsageLag(s: State)
    requires Balanced(s) && PhasesOK(s)
    ensures s.c.allocatedBytes - s.c.freedBytes - s.c.liveRequested ==
            Sum(Begun(s, 1, 2), Requested(s.ops)) - Sum(Ending(s, 1, 2), Requested(s.ops))
  {
    LagExact(s, 1, 2, Requested(s.ops));
    assert Net(s.c, 1) == s.c.allocatedBytes - s.c.freedBytes && Net(s.c, 2) == s.c.liveRequested;
  }

  /** Whatever is under way, the counts of one moment agree if and only if as many records
      as frees stand between their first and their fifth step, and the bytes if and only if
      the same bytes stand between the second and the third. */
  lemma MomentAgrees(run: seq<Step>)
    requires Legal(INITIAL, run)
    ensures var s := Exec(INITIAL, run);
            && (s.c.activeAllocations == s.c.allocationCount - s.c.freeCount <==>
                  |Begun(s, 0, 4)| == |Ending(s, 0, 4)|)
            && (s.c.liveRequested == s.c.allocatedBytes - s.c.freedBytes <==>
                  Sum(Begun(s, 1, 2), Requested(s.ops)) == Sum(Ending(s, 1, 2), Requested(s.ops)))
  {
    BalancedStart();
    RunKeepsInv(INITIAL, run);
    CountLag(Exec(INITIAL, run));
    UsageLag(Exec(INITIAL, run));
  }

  /** The usage is above the peak only while a record is under way that will raise it. */
  lemma AbovePeakOnlyMidway(run: seq<Step>)
    requires Legal(INITIAL, run)
    ensures var s := Exec(INITIAL, run);
            s.c.liveRequested > s.c.peakUsage ==> exists id :: id in s.ops && Covers(s.ops[id], s.c.liveRequested)
  {
    BalancedStart();
    RunKeepsInv(INITIAL, run);
  }

  // ------------------------------------------------------------------- separate loads

  /** Snapshot's eight loads see eight states, with any steps of other threads between. */
  ghost predicate LoadsFrom(ss: seq<State>, runs: seq<seq<Step>>) {
    && |ss| == 8 && |runs| == 7
    && forall i :: 0 <= i < 7 ==> Legal(ss[i], runs[i]) && ss[i + 1] == Exec(ss[i], runs[i])
  }

  /** snapshot, load by load in the order of the source. */
  function Snapshot(ss: seq<State>): Counters
    requires |ss| == 8
  {
    Counters(ss[0].c.allocationCount, ss[1].c.freeCount, ss[2].c.activeAllocations, ss[3].c.liveRequested,
             ss[7].c.liveReserved, ss[4].c.peakUsage, ss[5].c.allocatedBytes, ss[6].c.freedBytes)
  }

  /** What the k-th additions of a run add up to. */
  function Added(s: State, run: seq<Step>, k: nat): int
    requires Legal(s, run)
    decreases |run|
  {
    if run == [] then 0
    else
      (if run[0].Add? && s.ops[run[0].id].phase.done == k then Amount(s.ops[run[0].id], k) else 0) +
      Added(Apply(s, run[0]), run[1..], k)
  }

  /** What the k-th subtractions of a run add up to. */
  function Dropped(s: State, run: seq<Step>, k: nat): int
    requires Legal(s, run)
    decreases |run|
  {
    if run == [] then 0
    else
      (if run[0].Subtract? && s.ops[run[0].id].phase.done == k then Amount(s.ops[run[0].id], k) else 0) +
      Dropped(Apply(s, run[0]), run[1..], k)
  }

  lemma {:induction false} CountersMove(s: State, run: seq<Step>)
    requires Legal(s, run)
    ensures var c := Exec(s, run).c;
            && c.allocationCount == s.c.allocationCount + Added(s, run, 0)
            && c.freeCount == s.c.freeCount + Dropped(s, run, 0)
            && c.allocatedBytes == s.c.allocatedBytes + Added(s, run, 1)
            && c.freedBytes == s.c.freedBytes + Dropped(s, run, 1)
    decreases |run|
  {
    if run != [] { CountersMove(Apply(s, run[0]), run[1..]); }
  }

  lemma LoadsKeepInv(ss: seq<State>, runs: seq<seq<Step>>)
    requires LoadsFrom(ss, runs) && Inv(ss[0])
    ensures Inv(ss[2]) && Inv(ss[3])
  {
    RunKeepsInv(ss[0], runs[0]);
    RunKeepsInv(ss[1], runs[1]);
    RunKeepsInv(ss[2], runs[2]);
  }

  /** The counts of a snapshot agree if and only if what came in after the count of
      allocations was loaded, and the frees still under way, make up for what went out after
      the count of frees was loaded, and the records still under way. */
  lemma SnapshotCounts(ss: seq<State>, runs: seq<seq<Step>>)
    requires LoadsFrom(ss, runs) && Inv(ss[0])
    ensures var c := Snapshot(ss);
            c.activeAllocations == c.allocationCount - c.freeCount <==>
            Added(ss[0], runs[0], 0) + Added(ss[1], runs[1], 0) + |Ending(ss[2], 0, 4)| ==
            Dropped(ss[1], runs[1], 0) + |Begun(ss[2], 0, 4)|
  {
    LoadsKeepInv(ss, runs);
    CountersMove(ss[0], runs[0]);
    CountersMove(ss[1], runs[1]);
    CountLag(ss[2]);
  }

  /** The bytes of a snapshot agree if and only if the same holds of the bytes added and
      freed while the totals were loaded, and under way when the usage was. */
  lemma SnapshotBytes(ss: seq<State>, runs: seq<seq<Step>>)
    requires LoadsFrom(ss, runs) && Inv(ss[0])
    ensures var c := Snapshot(ss);
            c.liveRequested == c.allocatedBytes - c.freedBytes <==>
            Added(ss[3], runs[3], 1) + Added(ss[4], runs[4], 1) + Sum(Begun(ss[3], 1, 2), Requested(ss[3].ops)) ==
            Dropped(ss[3], runs[3], 1) + Dropped(ss[4], runs[4], 1) + Dropped(ss[5], runs[5], 1) +
            Sum(Ending(ss[3], 1, 2), Requested(ss[3].ops))
  {
    LoadsKeepInv(ss, runs);
    CountersMove(ss[3], runs[3]);
    CountersMove(ss[4], runs[4]);
    CountersMove(ss[5], runs[5]);
    UsageLag(ss[3]);
  }

  /** With nothing between the loads the snapshot is what the counters are, field by field. */
  lemma SnapshotStill(ss: seq<State>, s: State)
    requires |ss| == 8 && forall i :: 0 <= i < 8 ==> ss[i] == s
    ensures var c := Snapshot(ss);
            && c.allocationCount == s.c.allocationCount && c.freeCount == s.c.freeCount
            && c.activeAllocations == s.c.activeAllocations && c.liveRequested == s.c.liveRequested
            && c.liveReserved == s.c.liveReserved && c.peakUsage == s.c.peakUsage
            && c.allocatedBytes == s.c.allocatedBytes && c.freedBytes == s.c.freedBytes
  {}

  lemma LoadsKeepAll(ss: seq<State>, runs: seq<seq<Step>>, i: nat)
    requires LoadsFrom(ss, runs) && Inv(ss[0]) && i < 8
    ensures Inv(ss[i]) && ss[i].c.peakUsage >= ss[0].c.peakUsage
  {
    if i > 0 {
      LoadsKeepAll(ss, runs, i - 1);
      RunKeepsInv(ss[i - 1], runs[i - 1]);
    }
  }

  lemma PeakFrom(ss: seq<State>, runs: seq<seq<Step>>, i: nat)
    requires LoadsFrom(ss, runs) && Inv(ss[0]) && i < 8
    ensures ss[i].c.peakUsage <= ss[7].c.peakUsage
    decreases 7 - i
  {
    if i < 7 {
      LoadsKeepAll(ss, runs, i);
      RunKeepsInv(ss[i], runs[i]);
      PeakFrom(ss, runs, i + 1);
    }
  }

  /** The reported peak lies between the peaks at the beginning and at the end of the
      snapshot, and when its load finds all threads at rest it covers the usage then. */
  lemma SnapshotPeak(ss: seq<State>, runs: seq<seq<Step>>)
    requires LoadsFrom(ss, runs) && Inv(ss[0])
    ensures ss[0].c.peakUsage <= Snapshot(ss).peakUsage <= ss[7].c.peakUsage
    ensures Quiescent(ss[4]) ==> Snapshot(ss).peakUsage >= Sum(ss[4].ops.Keys, Requested(ss[4].ops))
  {
    LoadsKeepAll(ss, runs, 4);
    PeakFrom(ss, runs, 4);
    if Quiescent(ss[4]) { HeldCounters(ss[4]); }
  }

  /** If every load finds all threads at rest, the snapshot reports the sums over what was
      allocated when each figure was loaded, the reservation last. */
  lemma SnapshotAtRest(ss: seq<State>, runs: seq<seq<Step>>)
    requires LoadsFrom(ss, runs) && Inv(ss[0]) && forall i :: 0 <= i < 8 ==> Quiescent(ss[i])
    ensures var c := Snapshot(ss);
            && c.activeAllocations == |ss[2].ops|
            && c.liveRequested == Sum(ss[3].ops.Keys, Requested(ss[3].ops))
            && c.liveReserved == Sum(ss[7].ops.Keys, Reserved(ss[7].ops))
  {
    LoadsKeepAll(ss, runs, 2);
    LoadsKeepAll(ss, runs, 3);
    LoadsKeepAll(ss, runs, 7);
    HeldCounters(ss[2]);
    HeldCounters(ss[3]);
    HeldCounters(ss[7]);
  }

  /** Even a snapshot each of whose loads finds every thread at rest can be torn: an
      allocation between its loads makes one active allocation out of none. */
  lemma TornSnapshot() returns (ss: seq<State>, runs: seq<seq<Step>>)
    ensures LoadsFrom(ss, runs) && ss[0] == INITIAL && forall i :: 0 <= i < 8 ==> Quiescent(ss[i])
    ensures var c := Snapshot(ss); c.allocationCount == 0 && c.freeCount == 0 && c.activeAllocations == 1
  {
    var run := SoloRecord(INITIAL, 0, 5, 5);
    var t := State(Recorded(INITIAL.c, 5, 5), INITIAL.ops[0 := Op(5, 5, Held)]);
    ss := [INITIAL, INITIAL, t, t, t, t, t, t];
    runs := [[], run, [], [], [], [], []];
  }
}
