/** One shard of the small tier: the blocks of a size class, carved from 64 KiB runs. */
module Shards {
  import opened Words

  const RUN_SIZE: nat := 0x1_0000

  /** A carved block: its address, its run and its place in the run. */
  datatype Cell = Cell(addr: int, run: nat, slot: nat)

  /** A shard: the free list from its head, every block ever carved in order, the bases
      of the mapped runs, and how many blocks the last run has given. */
  datatype Shard = Shard(free: seq<int>, carved: seq<Cell>, runs: seq<int>, cut: nat)

  const EMPTY := Shard([], [], [], 0)

  /** Blocks per run. */
  function PerRun(stride: nat): nat
    requires stride > 0
  {
    RUN_SIZE / stride
  }

  ghost predicate StrideOK(stride: nat) {
    0 < stride <= RUN_SIZE && PerRun(stride) > 0
  }

  /** The bump region has no room for another block. */
  predicate Exhausted(s: Shard, stride: nat)
    requires stride > 0
  {
    s.runs == [] || s.cut == PerRun(stride)
  }

  function NextCell(s: Shard, stride: nat): Cell
    requires s.runs != []
  {
    Cell(s.runs[|s.runs| - 1] + s.cut * stride, |s.runs| - 1, s.cut)
  }

  function Carve(s: Shard, stride: nat): Shard
    requires s.runs != []
  {
    s.(carved := s.carved + [NextCell(s, stride)], cut := s.cut + 1)
  }

  function Refill(s: Shard, base: int): Shard {
    s.(runs := s.runs + [base], cut := 0)
  }

  /** takeBlock, given what the system answers if a run has to be mapped (0: refused).
      The result is the block, or 0. */
  function Take(s: Shard, stride: nat, answer: int): (Shard, int)
    requires stride > 0
  {
    if s.free != [] then (s.(free := s.free[1..]), s.free[0])
    else if !Exhausted(s, stride) then (Carve(s, stride), NextCell(s, stride).addr)
    else if answer == 0 then (s, 0)
    else (Carve(Refill(s, answer), stride), NextCell(Refill(s, answer), stride).addr)
  }

  // --------------------------------------------------------------------- invariant

  ghost predicate RunsApart(runs: seq<int>) {
    && (forall i :: 0 <= i < |runs| ==> runs[i] > 0)
    && forall i, j {:trigger Beyond(runs[i], runs[j])} :: 0 <= i < j < |runs| ==> Beyond(runs[i], runs[j])
  }

  ghost predicate FreshRun(runs: seq<int>, base: int) {
    base > 0 && forall i :: 0 <= i < |runs| ==> Beyond(runs[i], base)
  }

  /** Runs at a and b do not overlap. */
  predicate Beyond(a: int, b: int) {
    a + RUN_SIZE <= b || b + RUN_SIZE <= a
  }

  /** The cell lies where the bump cursor put it. */
  ghost predicate CellOK(s: Shard, stride: nat, c: Cell)
    requires stride > 0
  {
    && c.run < |s.runs| && c.slot < PerRun(stride)
    && c.addr == s.runs[c.run] + c.slot * stride
    && (c.run + 1 == |s.runs| ==> c.slot < s.cut)
  }

  /** Cells are carved run by run, slot by slot. */
  ghost predicate Before(a: Cell, b: Cell) {
    a.run < b.run || (a.run == b.run && a.slot < b.slot)
  }

  ghost predicate ShardOK(s: Shard, stride: nat) {
    && StrideOK(stride) && RunsApart(s.runs)
    && CountOK(s, PerRun(stride))
    && (forall j :: 0 <= j < |s.carved| ==> CellOK(s, stride, s.carved[j]))
    && (forall i, j {:trigger Before(s.carved[i], s.carved[j])} :: 0 <= i < j < |s.carved| ==>
          Before(s.carved[i], s.carved[j]))
  }

  /** A run is mapped only when its first block is needed. */
  ghost predicate CountOK(s: Shard, perRun: nat) {
    && s.cut <= perRun
    && (s.runs == [] ==> s.carved == [] && s.cut == 0)
    && (s.runs != [] ==> s.cut > 0 && |s.carved| == (|s.runs| - 1) * perRun + s.cut)
  }

  lemma CarveKeepsShard(s: Shard, stride: nat)
    requires ShardOK(s, stride) && !Exhausted(s, stride)
    ensures ShardOK(Carve(s, stride), stride)
  {
    var s' := Carve(s, stride);
    forall j | 0 <= j < |s'.carved|
      ensures CellOK(s', stride, s'.carved[j])
    {
      if j < |s.carved| { assert CellOK(s, stride, s.carved[j]); }
    }
    forall i, j | 0 <= i < j < |s'.carved|
      ensures Before(s'.carved[i], s'.carved[j])
    {
      if j == |s.carved| { assert CellOK(s, stride, s.carved[i]); }
    }
  }

  lemma RefillKeepsShard(s: Shard, stride: nat, base: int)
    requires ShardOK(s, stride) && Exhausted(s, stride) && FreshRun(s.runs, base)
    ensures ShardOK(Carve(Refill(s, base), stride), stride)
  {
    var s' := Carve(Refill(s, base), stride);
    forall j | 0 <= j < |s'.carved|
      ensures CellOK(s', stride, s'.carved[j])
    {
      if j < |s.carved| { assert CellOK(s, stride, s.carved[j]); }
    }
    forall i, j | 0 <= i < j < |s'.carved|
      ensures Before(s'.carved[i], s'.carved[j])
    {
      if j == |s.carved| { assert CellOK(s, stride, s.carved[i]); }
    }
    if s.runs != [] { RunsGrow(|s.runs|, PerRun(stride)); }
  }

  lemma RunsGrow(n: nat, p: nat)
    requires n > 0
    ensures n * p == (n - 1) * p + p
  {}

  lemma TakeKeepsShard(s: Shard, stride: nat, answer: int)
    requires ShardOK(s, stride) && (answer != 0 ==> FreshRun(s.runs, answer))
    ensures ShardOK(Take(s, stride, answer).0, stride)
  {
    if s.free != [] {
      FreeListApart(s, s.free[1..], stride);
    } else if !Exhausted(s, stride) {
      CarveKeepsShard(s, stride);
    } else if answer != 0 {
      RefillKeepsShard(s, stride, answer);
    }
  }

  /** The free list does not matter to the geometry of the runs. */
  lemma FreeListApart(s: Shard, free: seq<int>, stride: nat)
    requires ShardOK(s, stride)
    ensures ShardOK(s.(free := free), stride)
  {
    forall j | 0 <= j < |s.carved|
      ensures CellOK(s.(free := free), stride, s.carved[j])
    {
      assert CellOK(s, stride, s.carved[j]);
    }
  }

  // ------------------------------------------------------------------ where blocks lie

  lemma RunHolds(stride: nat, k: nat)
    requires StrideOK(stride) && k < PerRun(stride)
    ensures 0 <= k * stride && k * stride + stride <= RUN_SIZE
  {
    var p := PerRun(stride);
    assert RUN_SIZE == p * stride + RUN_SIZE % stride;
    SlotsApart(k, p, stride);
  }

  lemma SlotsApart(a: nat, b: nat, stride: nat)
    requires a < b
    ensures a * stride + stride <= b * stride
  {
    assert (b - a) * stride == b * stride - a * stride;
    MulAtLeast(b - a, stride);
  }

  /** Every carved block lies inside a mapped run. */
  lemma CarvedInRun(s: Shard, stride: nat, c: Cell)
    requires ShardOK(s, stride) && c in s.carved
    ensures c.run < |s.runs| && 0 < s.runs[c.run] <= c.addr && c.addr + stride <= s.runs[c.run] + RUN_SIZE
  {
    var j :| 0 <= j < |s.carved| && s.carved[j] == c;
    assert CellOK(s, stride, s.carved[j]);
    RunHolds(stride, c.slot);
  }

  /** Two carved blocks never overlap. */
  lemma CarvedApart(s: Shard, stride: nat, i: nat, j: nat)
    requires ShardOK(s, stride) && i < j < |s.carved|
    ensures var a, b := s.carved[i].addr, s.carved[j].addr; a + stride <= b || b + stride <= a
  {
    var a, b := s.carved[i], s.carved[j];
    CarvedInRun(s, stride, a);
    CarvedInRun(s, stride, b);
    assert Before(a, b) && CellOK(s, stride, s.carved[i]) && CellOK(s, stride, s.carved[j]);
    if a.run == b.run { SlotsApart(a.slot, b.slot, stride); } else { assert Beyond(s.runs[a.run], s.runs[b.run]); }
  }

  /** The runs mapped are just as many as the blocks carved need. */
  lemma RunsAreCeiling(s: Shard, stride: nat)
    requires ShardOK(s, stride)
    ensures |s.runs| == (|s.carved| + PerRun(stride) - 1) / PerRun(stride)
  {
    var n, p := |s.carved|, PerRun(stride);
    if s.runs == [] {
      RemainderUnique(p - 1, 0, p, p - 1);
    } else {
      RunsGrow(|s.runs|, p);
      RemainderUnique(n + p - 1, |s.runs|, p, s.cut - 1);
    }
  }
}
