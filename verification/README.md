# m-alloc in Dafny

A model of m-alloc, a three-tier memory allocator, with proofs of what it keeps over every run.
`dafny verify dfyconfig.toml` checks the whole project.

The program is modelled part by part, each in its own form, and then put together.

* **The segment heap.** `SegmentLayout` describes a heap as a partition of its segments into blocks;
  `SegmentTheorems` proves what follows from that description alone (the free blocks are determined by
  the live ones, an allocation is undone by its free, every run keeps the partition). `SegmentBins` and
  `SegmentSteps` relate the partition to a memory of 64-bit words with packed tags and doubly linked
  bins, and `SegmentHeap` is the class that works on those words, operation by operation. `BestFit` says
  when its choice is a best fit.
* **Pools and thread caches.** `Shards` and `PoolSystem` are a step machine over one size class with any
  number of threads; `Pools` has the classes (free list, shard, cache) and shows that what they do are
  runs of that machine. `SizeClasses` has the class table and its lookup. `CacheUse` says which block a
  thread gets and where one goes that it frees: the predicates `Popped` and `Pushed` for a thread with a
  cache, `Carved` and `Reclaimed` for one without, and `Drew` and `GaveBack` over all classes.
* **Large blocks.** `LargeAllocators` has the class with one mapping for each block.
* **Statistics.** `Statistics` is a protocol of single atomic steps taken by any number of threads,
  including the exchange loop for the peak; `Snapshots` adds the reader, load by load.
* **The facade.** `Tiers` puts the three tiers side by side in one address space, `TierWrites` says which
  bytes they write for themselves, `RawMemory` is a memory of bytes in which headers are laid out field by
  field, and `AllocatorImpl` is the class with headers, shims, guards, poison, registry and counters.
  `FacadeState`, `FreedBlocks`, `FacadeSteps` and `FacadeViews` hold its invariant and the lemmas behind
  each call.
* **The whole.** `CentralState` holds the three tiers on one system and dispatches to them; `Allocator` is
  the facade on top of it; and `Threads` is the allocator as the threads of a program use it, each with
  caches of its own that are made when it first needs them and through which all its small blocks go. The
  contracts speak of what a client sees, as `ClientViews` describes it: a map from its pointers to their
  contents, and the books of what was ever issued, what is retired, whose guards are damaged, and what was
  reported.
* **Interleaving.** `Interleaving` takes the facade's calls apart into their steps (the call of a tier, each
  write of a header, a guard or a poison byte, handing the block over) and lets any number of threads take
  them in any order.

How the parts meet. `AllocatorImpl` takes the answers of the tiers as arguments: a block, its capacity,
and the tier's own writes as a function on memory. What it asks of an answer is `FacadeSteps.AnswerOK`,
`FacadeSteps.TakenOK` and `FacadeSteps.MoveOK`. `CentralState` proves that the answers its tiers give are
of that kind, and `Allocator` passes them on, so that its contracts assume nothing about the tiers:

* `Mappings.OwnedGrows` derives that a new mapping is away from those of all tiers, from what the system
  promises and from who owns which mapping; `Mappings.OwnedShrinks` covers what is given back.
* `TierImages` lays the words of the tiers over the bytes of memory. A write of the segment heap, or a
  link of a free list, changes no byte of a block that is handed out (`HeapServeQuiet`, `HeapFreeQuiet`,
  `LinksQuiet`); and memory holds every tag, node and link as the classes keep them, whatever clients
  and the facade write (`ReflectedOutside`, `ListsOutside`, and the invariant `Allocator.Intact`).
* `TierSteps` puts these together for each operation of each tier.
* `SecondFree` says what a second free reads where a free node has replaced a shim.
* Every operation says which threads' caches it may use and leaves those of all others alone
  (`CentralStates.OthersKeep`). A new allocator has none, `Allocator.ThreadStarts` makes those of a thread
  that has none, and `Threads.ThreadedAllocator` starts from there: its contracts have no requirement on
  caches, so any sequence of calls by any threads follows from them.

Conventions. Addresses and sizes are unbounded integers below an address limit of 2^63, and size
arithmetic that can wrap (`alignUp`, the total of a medium request) wraps at 2^64 as `size_t` does. The
system is a class that refuses a mapping or returns a fresh page-aligned one, and counts its refusals; the
page size is a multiple of 16 that divides 64 KiB. A lock makes an operation atomic. A method that works
for a thread takes that thread's caches, or none. Clients write inside their own blocks and, where guards
are in question, on the guard bytes. Reports are appended to a trace. Large invariants are kept folded
behind `Folding.Opened`, and compared with `true`, inside the invariants and the lemmas about them, so that
the verifier treats each as one fact and looks inside only where `Opened` is asserted.

Where the code and its documentation differ, the model follows the code:

* README.md line 68 says best fit. `findFit` is first fit over ordered bins. The block it takes is a best
  fit if and only if no fitting block behind it in its bin is smaller (`BestFit.FirstFitIsBestIff`);
  `BestFit.NotAlwaysBest` runs an empty heap into a state in which it is not, and
  `SegmentSteps.FirstFitWithinTwice` bounds the difference.
* docs/architecture.md line 43 says about 12 percent waste at worst. That holds exactly for the requests
  named in `SizeClasses.WasteWithinTwelvePercent`, and fails for all between a class and 88 percent of the
  next (`SizeClasses.WasteAboveTwelvePercent`); a request of 33 bytes takes 48.
* docs/allocator.md line 40 says the snapshot is consistent. It is at quiescent points
  (`Statistics.QuiescentExact`). In general its counts, and its bytes, agree exactly under the conditions in
  `Snapshots.SnapshotCounts` and `Snapshots.SnapshotBytes`; `Snapshots.TornSnapshot` is one that does not.
* The reported peak never exceeds the high-water mark of the usage but can miss it
  (`Statistics.PeakCanUnderstate`); it is exact if and only if some sample was taken at the mark
  (`Statistics.PeakExactIff`).
* `alignUp` rounds up if and only if the sum fits 64 bits, and gives zero otherwise
  (`Words.AlignUpExactIff`).
* docs/memory-layout.md lines 16 and 45 say that the state in a header tells a second free, as a free node
  leaves the universal header alone. The shim of a medium block aligned at an offset of 16 lies under the
  node: without tracking, its second free is reported as an invalid pointer if the block stayed a block,
  and as a double free if its left neighbour swallowed it; if its segment was given back, no mapping holds
  the header any more, and the program would fault (`Allocator.FreeShimTwice`, an exact case distinction).
* `enableDoubleFreeDetection` (include/MAlloc/Config.hpp line 15) is never read: the check of the state in
  the header always runs.
* The re-insert at src/SegmentHeap.cpp line 199 and the error branches of `rawDeallocate` cannot be
  reached from a sound state, so the model has no such branches: `SegmentHeap.ReleaseSegment` finds
  its segment, and `AllocatorImpl.RawDeallocate` finds a tier.

## Model

| member | source | states |
|---|---|---|
| `Words.IsPowerOfTwoExact` | src/BlockHeader.hpp:57-59 | the mask test accepts exactly the powers of two |
| `Words.AlignUpExact` | src/BlockHeader.hpp:53-55 | the mask form of alignUp is the least multiple of a power of two that is not below its argument, and less than the alignment above it, whenever the sum fits 64 bits |
| `Words.AlignUpWraps` | src/BlockHeader.hpp:53-55 | for every power of two, alignUp is zero whenever the sum does not fit 64 bits |
| `Words.AlignUpExactIff` | src/BlockHeader.hpp:53-55 | alignUp is the least multiple not below its argument if and only if the sum fits 64 bits |
| `Tags.PackedReads` | src/SegmentHeap.hpp:39-51 | a packed word decodes to the size and the three flags that were stored |
| `Tags.PackedSetSize` | src/SegmentHeap.hpp:43-45 | setSize replaces the size of a packed word and keeps its flags |
| `Tags.PackedSetFlag` | src/SegmentHeap.hpp:53-59 | setFlag changes one flag and neither the size nor the other flags |
| `Tags.BinIndexMonotone` | src/SegmentHeap.cpp:9-13 | larger sizes are never in lower bins |
| `Tags.BinHolds` | src/SegmentHeap.cpp:9-13 | of all sizes that a block can have, bin i > 0 holds exactly those from 2^(i+5) up to 2^(i+6), and bin 0 those below 64 |
| `Tags.SameBinWithinTwice` | src/SegmentHeap.cpp:9-13 | two sizes of one bin differ by less than a factor of two |
| `SystemMemory.Os.Map` | src/SystemMemory.cpp:14-32 | a mapping is refused and nothing changes, or is page-aligned, rounded to the next whole page and disjoint from everything mapped |
| `SegmentLayout.AllocKeepsWellFormed` | src/SegmentHeap.cpp:56-58 | taking a free block that fits keeps every segment exactly tiled, linked and coalesced, and adds exactly that block to the live ones, with less than 48 bytes to spare |
| `SegmentLayout.AllocFreshKeepsWellFormed` | src/SegmentHeap.cpp:47-58 | the same, with the same bounds on the size, when nothing fits and a segment is added first |
| `SegmentLayout.FreeKeepsWellFormed` | src/SegmentHeap.cpp:61-89 | freeing keeps tiling, left sizes, coalescing and residency, and removes exactly that block from the live ones |
| `SegmentTheorems.Canonical` | src/SegmentHeap.cpp:61-89 | two coalesced tilings of the same segments with the same live blocks are equal |
| `SegmentTheorems.AllocFreeRestores` | src/SegmentHeap.cpp:39-89 | allocate then deallocate restores every block and the segments, split or not |
| `SegmentTheorems.AllocFreshFreeRestores` | src/SegmentHeap.cpp:39-89 | the same when the allocation mapped a segment; on an empty heap the segment stays as one free block |
| `SegmentTheorems.ReachableWellFormed` | src/SegmentHeap.cpp:39-89 | every layout reached by any run of allocations and frees is well formed |
| `SegmentTheorems.StepKeepsOthers` | src/SegmentHeap.cpp:39-89 | no operation on another block moves, resizes or frees a live block |
| `SegmentTheorems.NothingLive` | src/SegmentHeap.cpp:84-88 | with nothing live, one segment is left, holding one free block |
| `SegmentTheorems.FreeAllInAnyOrder` | src/SegmentHeap.cpp:61-89 | freeing all live blocks in any order is legal and ends in one segment with one whole free block |
| `SegmentTheorems.FreeBlocksAreMaximalGaps` | src/SegmentHeap.cpp:61-89 | the free blocks of a segment are exactly the maximal gaps between its live blocks |
| `SegmentTheorems.FreeCountBound` | src/SegmentHeap.cpp:61-89 | free blocks never outnumber live blocks plus segments |
| `SegmentTheorems.SegmentCountBound` | src/SegmentHeap.cpp:187-200 | there are at most max(1, live blocks) segments |
| `SegmentTheorems.SegmentTotal` | src/SegmentHeap.cpp:153-185 | the block sizes of a segment sum to the segment size |
| `SegmentTheorems.FreeBytes` | src/SegmentHeap.cpp:98-111 | the free bytes are the mapped bytes less the live ones |
| `SegmentBins.ReadTag` | src/SegmentHeap.hpp:39-51 | the accessors read from memory what the partition says |
| `SegmentBins.InsertAgrees` | src/SegmentHeap.cpp:118-126 | after the writes of insertFree, tags, bins and partition agree with the block free and first in its bin |
| `SegmentBins.RemoveAgrees` | src/SegmentHeap.cpp:128-139 | after the writes of removeFree they agree with the block taken out of the bin its size gives |
| `SegmentSteps.RoundedTotalExact` | src/SegmentHeap.cpp:40-41 | the total covers header and request, is granular, and exceeds them by less than 16 bytes or is the least block |
| `SegmentSteps.RoundedTotalWraps` | src/SegmentHeap.cpp:40-41 | the total covers the request if and only if it does not wrap; a wrapped one is the least block size |
| `SegmentSteps.FirstFitWithinTwice` | src/SegmentHeap.cpp:141-151 | the first fit is less than twice as large as any block that fits |
| `SegmentSteps.BlocksAreClear` | src/SegmentHeap.hpp:67-71 | the header slot of a block is out of reach of the tags and nodes of all others |
| `SegmentHeaps.SegmentHeap.InsertFree` | src/SegmentHeap.cpp:118-126 | sets the free flag, puts the block first in the bin of its size, and writes only its tag and the nodes of free blocks |
| `SegmentHeaps.SegmentHeap.RemoveFree` | src/SegmentHeap.cpp:128-139 | takes the block out of the chain of the bin its size gives, leaves every other chain as it is, clears the flag, and writes only its tag and the nodes of free blocks |
| `SegmentHeaps.SegmentHeap.FindFit` | src/SegmentHeap.cpp:141-151 | returns nothing if and only if no free block is large enough, else the first fit, less than twice the best |
| `SegmentHeaps.SegmentHeap.SplitBlock` | src/SegmentHeap.cpp:169-185 | splits exactly when at least 48 bytes remain, and tags, bins and partition agree afterwards |
| `SegmentHeaps.SegmentHeap.MapSegment` | src/SegmentHeap.cpp:153-167 | a refused mapping changes nothing, else a fresh segment with one free block is added |
| `SegmentHeaps.SegmentHeap.ReleaseSegment` | src/SegmentHeap.cpp:187-200 | a whole free segment is unmapped unless it is the only one, and the search for it always succeeds |
| `SegmentHeaps.SegmentHeap.Coalesce` | src/SegmentHeap.cpp:64-83 | the block grows over exactly its free neighbours and the next block learns its size |
| `SegmentHeaps.SegmentHeap.Allocate` | src/SegmentHeap.cpp:39-59 | refines the layout operation, and takes exactly the first fit of the bins where a block fits; fails only for an oversized total, or when nothing fits and mapping fails; writes only tags and nodes of blocks that were not live |
| `SegmentHeaps.SegmentHeap.Deallocate` | src/SegmentHeap.cpp:61-89 | refines the layout operation, puts what was freed first in its bin, and unmaps exactly the segment that goes; the payload gets list links if the block stays a block and is left alone otherwise; no live payload is written, nor the header slot of a block freed earlier |
| `SegmentHeaps.SegmentHeap.Write` | src/DebugLayer.hpp:25-36 | any word of a live payload may be written from outside: tags, bins and partition agree as before |
| `SegmentBins.PayloadWriteAgrees` | src/SegmentHeap.hpp:67-71 | no word of a live payload is a tag or a node |
| `SegmentSteps.StaysWhenFreed` | src/SegmentHeap.cpp:64-89 | a freed block is still a block if and only if its left neighbour does not absorb it and its segment is not given back |
| `SegmentSteps.FreeHasLinks` | src/SegmentHeap.cpp:118-126 | the two words behind the header slot of a free block are null or lead to other free blocks |
| `SegmentSteps.SwallowedKept` | src/SegmentHeap.cpp:72-79 | a block that is swallowed as it is freed keeps its whole payload |
| `BestFit.FirstFitIsBestIff` | src/SegmentHeap.cpp:141-151 | the first fit is a smallest fit if and only if no fitting block behind it in its own bin is smaller |
| `BestFit.NotAlwaysBest` | src/SegmentHeap.cpp:141-151 | a run from the empty heap, four allocations and two frees, after which a request of 5104 bytes takes a block of 6144 although one of 5120 fits exactly; it ends early only if the system refuses a segment |
| `SegmentHeaps.SegmentHeap.PayloadCapacity` | src/SegmentHeap.cpp:91-96 | the size of the block less its header |
| `SegmentHeaps.SegmentHeap.ExternalFragmentation` | src/SegmentHeap.cpp:98-116 | the loops compute mapped less live bytes and the largest free block; the result lies in [0,1) |
| `Statistics.RunKeepsInv` | src/StatisticsCollector.hpp:12-27 | under every interleaving of atomic steps the invariant about threads in mid-operation holds, and the peak never decreases |
| `Statistics.QuiescentExact` | src/StatisticsCollector.hpp:12-38 | at every quiescent point usage, reservation and count are those of the live allocations, agree with the totals, and the peak is at least the usage |
| `Statistics.NeverBelowZero` | src/StatisticsCollector.hpp:21-27 | no counter that is subtracted from goes below zero at any time |
| `Statistics.PeakNeverOverstates` | src/StatisticsCollector.hpp:47-51 | the peak never exceeds the high-water mark of the usage |
| `Statistics.PeakIsLargestSample` | src/StatisticsCollector.hpp:47-51 | at every quiescent point of every interleaving the peak is exactly the largest usage that any sample saw |
| `Statistics.PeakExactIff` | src/StatisticsCollector.hpp:47-51 | it is the high-water mark if and only if some sample was taken at the mark, or nothing was ever in use |
| `Statistics.PeakExactWhenSampled` | src/StatisticsCollector.hpp:47-51 | in particular it is exact when nothing is given back between an addition and its sample |
| `Statistics.PeakCanUnderstate` | src/StatisticsCollector.hpp:47-51 | a run after which the peak is 10 although 15 bytes were in use |
| `Statistics.SnapshotCanDisagree` | src/StatisticsCollector.hpp:12-27 | a run in the middle of which, at one moment, usage exceeds the peak and the counts disagree |
| `Snapshots.MomentAgrees` | src/StatisticsCollector.hpp:12-27 | at any moment of any run the counts agree if and only if as many recordings as frees stand between their first and fifth step, and the bytes if and only if the same bytes stand between the second and third |
| `Snapshots.AbovePeakOnlyMidway` | src/StatisticsCollector.hpp:12-19 | usage is above the peak only while a recording is under way that will raise the peak to it |
| `Snapshots.SnapshotCounts` | src/StatisticsCollector.hpp:29-38 | with any steps of other threads between the loads, the counts of a snapshot agree if and only if what went by between the loads makes up for what was under way |
| `Snapshots.SnapshotBytes` | src/StatisticsCollector.hpp:29-38 | the same for the bytes in use against the totals |
| `Snapshots.SnapshotStill` | src/StatisticsCollector.hpp:29-38 | if no step lies between the loads, the snapshot holds the eight counters, field by field |
| `Snapshots.SnapshotPeak` | src/StatisticsCollector.hpp:29-38 | the reported peak is at least the peak when the snapshot began and at most the peak when it ended |
| `Snapshots.SnapshotAtRest` | src/StatisticsCollector.hpp:29-38 | if every load finds all threads at rest, count, usage and reservation are those of the live allocations at their own loads; the reservation is the sum of their reserved bytes |
| `Snapshots.TornSnapshot` | src/StatisticsCollector.hpp:29-38 | a snapshot that disagrees although every load finds all threads at rest |
| `Statistics.SoloRecord` | src/StatisticsCollector.hpp:12-19 | a recordAllocation that runs alone is a run of atomic steps with the combined effect |
| `Statistics.SoloFree` | src/StatisticsCollector.hpp:21-27 | the same for recordFree |
| `SizeClasses.ClassSizesValid` | src/SizeClassTable.hpp:17-19 | the table is strictly increasing, granular, and ends at 4096 |
| `SizeClasses.ClassSpacing` | src/SizeClassTable.hpp:17-19 | the classes are 8 apart up to 32, 16 apart up to 128, and from there four to each doubling up to 4096 |
| `SizeClasses.BuildLookup` | src/SizeClassTable.hpp:33-44 | for any such table the builder never leaves it, and each slot gets the least class that holds the slot's size |
| `SizeClasses.LookupExact` | src/SizeClassTable.hpp:21-23 | the constant-time lookup returns the least class that fits |
| `SizeClasses.ClassIndex` | src/SizeClassTable.hpp:21-23 | the least class that fits |
| `SizeClasses.StrideCovers` | src/PoolAllocator.hpp:31-33 | the stride of the chosen class covers header and request |
| `SizeClasses.WasteExample` | src/SizeClassTable.hpp:17-19 | 33 bytes take a block of 48 |
| `SizeClasses.WasteWithinTwelvePercent` | src/SizeClassTable.hpp:17-23 | at most 12 percent of the block is unused if and only if the size is at least 88 percent of some class that holds it |
| `SizeClasses.WasteAboveTwelvePercent` | src/SizeClassTable.hpp:17-23 | every size between one class and 88 percent of the next wastes more |
| `SizeClasses.WasteBelowThird` | src/SizeClassTable.hpp:17-23 | less than a third of the block is unused if and only if the size is above 5 and neither 9 nor 10 |
| `Shards.TakeKeepsShard` | src/PoolAllocator.cpp:52-65 | takeBlock keeps the carved blocks one stride apart inside the runs, and never carves one twice |
| `Shards.CarvedApart` | src/PoolAllocator.cpp:62-64 | any two carved blocks are at least a stride apart |
| `Shards.RunsAreCeiling` | src/PoolAllocator.cpp:41-65 | the number of runs is the ceiling of carved blocks over blocks per run |
| `PoolSystem.StepKeepsPlaces` | src/ThreadCache.cpp:10-45 | every step of any thread keeps each carved block in exactly one place |
| `PoolSystem.EveryBlockOnce` | src/ThreadCache.cpp:10-45 | after any interleaving of refills, pops, frees, flushes and exits each carved block is once in the free list, in one cache, or with a client, and no cache exceeds 64 |
| `PoolSystem.PushAllReverses` | src/PoolAllocator.cpp:33-39 | what freeBatch pushes comes back in the opposite order, before what was there |
| `PoolSystem.FootprintExact` | src/PoolAllocator.cpp:41-65 | carved blocks equal the maximum ever outside the shard at once, and runs are the ceiling of that over blocks per run |
| `PoolSystem.OutsideBound` | src/ThreadCache.hpp:32-38 | blocks outside the shard are at most the live ones plus 64 for each cache |
| `PoolSystem.BlowUpBound` | src/ThreadCache.cpp:24-45 | carved blocks never exceed the peak of live ones plus 64 times the most caches alive at once |
| `Pools.FreeList.Push` | src/FreeList.hpp:17-21 | the list gains the block in front, and only the first word of the block is written |
| `Pools.FreeList.Pop` | src/FreeList.hpp:23-31 | the first block, or null exactly when the list is empty |
| `Pools.FreeList.PopBatch` | src/FreeList.hpp:33-44 | as many blocks from the front as there are and fit, in order |
| `Pools.PoolShard.TakeBlock` | src/PoolAllocator.cpp:52-65 | refines the step on the shard: free list first, then the bump region, then a fresh run; every mapping stays, a new run is away from everything mapped, and null means that the system refused one |
| `Pools.PoolShard.AllocateBatch` | src/PoolAllocator.cpp:17-31 | refines the batch of such steps, stopping at the first failure; every mapping stays and new runs are away from everything mapped |
| `Pools.PoolShard.FreeBatch` | src/PoolAllocator.cpp:33-39 | pushes the blocks of the span one after the other and writes only their first words |
| `Pools.ClassCache.AllocateBlock` | src/ThreadCache.cpp:24-34 | refills an empty cache by a batch of 16 and pops the last slot; null exactly when the batch is empty; the same of mappings |
| `Pools.ClassCache.FreeBlock` | src/ThreadCache.cpp:36-45 | flushes the last 16 slots of a full cache, then pushes |
| `Pools.ClassCache.Drain` | src/ThreadCache.cpp:16-20 | gives every cached block of the class back |
| `Pools.AllocateIsRun` | src/ThreadCache.cpp:24-34 | what the cache does on allocation is a run of the step machine |
| `Pools.FreeIsRun` | src/ThreadCache.cpp:36-45 | what the cache does on a free is a run of the step machine |
| `CacheUse.ServesPops` | src/ThreadCache.cpp:24-34 | a block served through a cache that is not empty is its last, and the shard does not change; from an empty one it is the last of a batch of 16 from the shard, and the others stay in the cache |
| `CacheUse.FreePushes` | src/ThreadCache.cpp:36-45 | a block freed through a cache becomes its last; of 64 that were there, the last 16 have gone back to the shard first |
| `CacheUse.BatchInRun` | src/PoolAllocator.cpp:41-65 | a batch from a shard with an empty free list and room in its run is carved from the run in use, block after block, a stride apart |
| `CacheUse.BatchInFreshRun` | src/PoolAllocator.cpp:41-65 | without room, from the start of a fresh run |
| `CacheUse.BatchFromList` | src/PoolAllocator.cpp:52-58 | one from a shard with enough on its free list is the front of that list |
| `CacheUse.FirstOfThread` | src/ThreadCache.cpp:24-34 | the first block that a thread gets from a shard with nothing to give is the last of 16 at the start of a fresh run, and the other 15 are in its cache |
| `CacheUse.FlushedLastFirst` | src/ThreadCache.cpp:36-45 | what a full cache gives back comes out of the shard again last block first |
| `CacheUse.IdleThenDrew` | src/AllocatorImpl.cpp:300-313 | that a thread's cache is made first makes no difference to the block served and to what stays in cache and shard |
| `Tiers.RawInside` | src/AllocatorImpl.cpp:219-264 | every block a tier has handed out lies inside one mapping of that tier, aligned to 16 |
| `Tiers.RawsApart` | src/AllocatorImpl.cpp:219-264 | two blocks handed out never overlap, whichever tiers they are from |
| `Tiers.GrantedIsAllowed` | src/SegmentHeap.cpp:39-59 | what the contract of the segment heap grants is a step of the heap in the composite state |
| `Tiers.ServeKeeps` | src/AllocatorImpl.cpp:219-264 | serving a raw request hands out exactly one new block that holds header and request, and keeps the state of all tiers |
| `Tiers.MediumServeKeeps` | src/AllocatorImpl.cpp:240-252 | a medium block is over-provisioned by at most 47 bytes |
| `Tiers.ReleaseKeeps` | src/AllocatorImpl.cpp:266-298 | giving a block back takes exactly that block out of what is handed out |
| `TierWrites.RawUntagged` | src/SegmentHeap.cpp:118-185 | no link, tag or node that a tier writes lies in a block that stays handed out, across all tiers |
| `TierWrites.SlotUntagged` | src/SegmentHeap.hpp:67-71 | nor in the part of a freed slot beyond a small block's link or beside a medium block's node |
| `TierWrites.SlotKept` | src/SegmentHeap.cpp:61-89 | frees keep the slot of an earlier freed block whole for as long as it is mapped |
| `TierWrites.ThreadedKeeps` | src/ThreadCache.cpp:10-22 | threads that come and go change neither what is handed out, nor what is mapped, nor which freed slots are whole |
| `FacadeState.UsersApart` | src/AllocatorImpl.cpp:32-68 | the user ranges and the raw blocks of any two issued pointers are disjoint |
| `FacadeState.GuardedBlock` | src/DebugLayer.hpp:25-36 | applyGuards leaves the universal header in place, stays inside the raw block, and every guard byte has the pattern |
| `FacadeState.AlignedBlock` | src/AllocatorImpl.cpp:185-190 | the aligned shim stays inside the raw block and does not overlap the universal header |
| `FacadeState.ReservedCovers` | src/AllocatorImpl.cpp:238-263 | the reserved figure covers the size; for a plain medium block by at most 47 bytes |
| `FacadeState.ReservedExact` | src/AllocatorImpl.cpp:238-263 | the reserved figure of a small block is the least entry of the class table that is not below the raw request; that of a medium or large one is what lies from the raw user pointer to the end of the raw block |
| `FreedBlocks.WipedOnly` | src/AllocatorImpl.cpp:92-119 | poison and freed marks stay inside the raw block, and afterwards the header of the block is marked freed |
| `FreedBlocks.WipedPayload` | src/AllocatorImpl.cpp:97-99 | with poisoning, every byte of the payload is 0xDD when the tier takes the block back |
| `FreedBlocks.OutOfReach` | src/SegmentHeap.hpp:67-71 | the headers no tier overwrites are those of small blocks and of medium blocks other than one aligned at offset 16 |
| `FreedBlocks.ShimUnderNode` | src/SegmentHeap.cpp:118-126 | for that one a node may be written exactly on the shim header when it is freed |
| `SecondFree.NodeReplacesShim` | src/SegmentHeap.cpp:118-126 | if the block stays a block, memory then holds neither the mark of a freed header nor that of an issued one below the pointer |
| `SecondFree.SwallowedShimStays` | src/SegmentHeap.cpp:72-79 | if it is swallowed or its segment goes, the shim header is untouched |
| `SecondFree.LinkHasNoTier` | src/BlockHeader.hpp:30-33 | a list link read as a header has no valid tier |
| `FreedBlocks.RetiredKept` | src/AllocatorImpl.cpp:80-89 | freeing another block leaves a freed header as it is |
| `Alignment.AlignedPlacement` | src/AllocatorImpl.cpp:180-190 | for every power of two from 32 to 2^30 the user pointer is the least multiple above the raw one, at an offset in [16, alignment] that fits 32 bits |
| `Alignment.SmallAlignment` | src/AllocatorImpl.cpp:165-167 | alignments up to 16 need no shim |
| `FacadeSteps.ReservedAtLeastUsage` | src/StatisticsCollector.hpp:31-41 | the reserved bytes are never below the usage |
| `FacadeViews.FreshStart` | src/AllocatorImpl.cpp:20-21 | tiers that have mapped nothing are a sound start |
| `FacadeViews.FreeKeeps` | src/AllocatorImpl.cpp:90-128 | freeing an issued block keeps the invariant of the facade and touches no other issued block |
| `FacadeViews.AllocateKeeps` | src/AllocatorImpl.cpp:43-66 | wrapping and registering a raw block keeps it, and touches no issued block |
| `FacadeViews.AlignKeeps` | src/AllocatorImpl.cpp:180-197 | the same for the aligned shim |
| `FacadeViews.TrackedExactly` | src/DebugLayer.hpp:63-90 | the registry holds exactly the issued pointers, and the tombstones exactly those once issued and since freed |
| `FacadeViews.MovedByParts` | src/AllocatorImpl.cpp:147-156 | allocate, copy and free together move the block with its contents |
| `DebugLayers.DebugLayer.Track` | src/DebugLayer.hpp:63-69 | a pointer becomes live and leaves the tombstones |
| `DebugLayers.DebugLayer.Untrack` | src/DebugLayer.hpp:71-80 | a live pointer becomes a tombstone; otherwise nothing changes |
| `DebugLayers.VerifyGuards` | src/DebugLayer.hpp:38-53 | accepts if and only if the 16 bytes from 32 below the block and the 32 bytes behind it are all 0xFB |
| `AllocatorImpls.AllocatorImpl.constructor` | src/AllocatorImpl.cpp:20-21 | the invariant holds from the start, with nothing issued and nothing counted |
| `AllocatorImpls.GoodAlignmentExact` | src/AllocatorImpl.cpp:160-163 | the alignments that are accepted are the powers of two up to 2^30 |
| `AllocatorImpls.AllocatorImpl.RawAllocate` | src/AllocatorImpl.cpp:219-264 | routes by size (up to 4096, up to 256 KiB, above), writes the universal header into a block of its own, and returns the reserved figure: the least class size that fits, or the bytes to the end of the block |
| `AllocatorImpls.AllocatorImpl.RawDeallocate` | src/AllocatorImpl.cpp:266-298 | finds tier and class from the header again, marks it freed, hands the block back, and returns that figure: the least class size that fits the size in the header, or the bytes to the end of the block |
| `AllocatorImpls.AllocatorImpl.Allocate` | src/AllocatorImpl.cpp:32-68 | a fresh aligned pointer to a block of the size asked for, poisoned and guarded as configured, all other blocks untouched; or a reported error and no change, OutOfMemory only where the tier had nothing to give |
| `AllocatorImpls.AllocatorImpl.AlignedAllocate` | src/AllocatorImpl.cpp:159-199 | the same at a multiple of the alignment; InvalidAlignment if and only if it is no power of two up to 2^30 |
| `AllocatorImpls.AllocatorImpl.Deallocate` | src/AllocatorImpl.cpp:70-129 | accepted if and only if null or issued; with tracking DoubleFree if and only if once issued, else InvalidPointer; without, DoubleFree if and only if the header below has a tier from 0x51 to 0x55 and the state 0xF4EE, as every freed block has whose header is out of reach and mapped; HeapCorruption if and only if a guard byte changed |
| `AllocatorImpls.AllocatorImpl.AllocationSize` | src/AllocatorImpl.cpp:201-213 | the requested size of an issued pointer, zero for any other, whatever a tier has written there; without tracking, what the header says if it looks like that of an issued block |
| `AllocatorImpls.AllocatorImpl.Reallocate` | src/AllocatorImpl.cpp:131-157 | fails without any change, or moves the first min(old, new) bytes to a fresh block, retires the old pointer and leaves every other block as it is |
| `AllocatorImpls.AllocatorImpl.CopyOver` | src/AllocatorImpl.cpp:147-156 | the copy of a move writes over the first bytes of the new block and leaves every other issued block as it is |
| `AllocatorImpls.AllocatorImpl.Write` | src/DebugLayer.hpp:25-36 | a client's write inside its block, or on its guards, keeps the invariant and all other blocks |
| `AllocatorImpls.AllocatorImpl.ThreadMoves` | src/ThreadCache.cpp:10-22 | a cache that appears or is flushed keeps the invariant and every issued block |
| `AllocatorImpls.AllocatorImpl.LeakCount` | src/AllocatorImpl.cpp:23-30 | with tracking, the number of issued blocks |
| `AllocatorImpls.AllocatorImpl.Figures` | src/AllocatorImpl.cpp:215-217 | usage and reservation are sums over the issued blocks, where each small one counts with the least class size that fits and each other one with the bytes to its end; usage is above neither the reservation nor the peak |
| `AllocatorImpls.AllocatorImpl.IssuedApart` | src/AllocatorImpl.cpp:32-199 | in every valid state issued blocks are pairwise disjoint and inside mapped memory |
| `AllocatorImpls.AllocatorImpl.Accepts` | src/AllocatorImpl.cpp:74-89 | registry and header together accept exactly the issued pointers, and, without tracking, those that are not issued but whose header looks as if they were |
| `AllocatorImpls.AllocatorImpl.Locate` | src/AllocatorImpl.cpp:266-298 | through the shim to the universal header, the raw block, its tier and its class are found again |
| `RawMemory.HeaderReads` | src/BlockHeader.hpp:24-36 | the fields of a header laid out in bytes read back as they were stored |
| `RawMemory.FieldsInBytes` | src/BlockHeader.hpp:24-36 | the tier of a header is the two bytes from offset 8, the state those from offset 10, low byte first; size and offset likewise |
| `Mappings.OwnedGrows` | src/SystemMemory.cpp:14-32 | what the system newly maps for one tier is away from all regions of all tiers, and ownership is kept |
| `Mappings.OwnedShrinks` | src/SystemMemory.cpp:34-49 | a mapping that is given back leaves the rest owned as before |
| `TierImages.HeapServeQuiet` | src/SegmentHeap.cpp:39-59 | the bytes that the segment heap writes in an allocation are its own: none in a block that was handed out or is now |
| `TierImages.HeapFreeQuiet` | src/SegmentHeap.cpp:61-89 | the same for a free |
| `TierImages.LinksQuiet` | src/FreeList.hpp:17-21 | the same for the links of a free list |
| `TierImages.ImageReflects` | src/SegmentHeap.cpp:118-185 | after an operation of the segment heap memory holds every tag and node as the heap keeps them |
| `TierImages.ImageLinks` | src/FreeList.hpp:17-21 | after blocks were pushed memory holds the links of the whole list |
| `TierImages.ReflectedOutside` | src/SegmentHeap.hpp:67-71 | writes inside any block that is handed out, of any tier, reach no tag and no node |
| `TierImages.ListsOutside` | src/FreeList.hpp:11-13 | nor a link of any free list |
| `TierImages.ListsBesideHeap` | src/SegmentHeap.cpp:118-185 | nor does what the segment heap writes |
| `TierSteps.SmallServed` | src/AllocatorImpl.cpp:221-231 | from the contracts of shard and cache: the answer for a small block meets the facade's assumption, and the tiers stay sound and own their mappings |
| `TierSteps.HeapServed` | src/AllocatorImpl.cpp:240-251 | the same from the contract of the segment heap |
| `TierSteps.LargeServed` | src/AllocatorImpl.cpp:253-263 | the same from that of the large tier |
| `TierSteps.SmallTaken` | src/AllocatorImpl.cpp:269-279 | the same for a small block that is given back |
| `TierSteps.HeapTaken` | src/AllocatorImpl.cpp:280-286 | for a medium block, whose segment may go back to the system |
| `TierSteps.LargeTaken` | src/AllocatorImpl.cpp:287-293 | and for a large one, whose mapping goes |
| `TierSteps.ArriveStepped` | src/AllocatorImpl.cpp:300-313 | the step of a cache that appears meets the facade's assumption |
| `TierSteps.ExitStepped` | src/ThreadCache.cpp:10-22 | so does that of one that is flushed |
| `TierSteps.ImageCarries` | src/SegmentHeap.cpp:39-89 | memory that holds all tags, nodes and links does so after an operation of the segment heap |
| `TierSteps.LinksRenew` | src/PoolAllocator.cpp:33-39 | and after blocks of a class were given back |
| `TierSteps.SmallRenews` | src/PoolAllocator.cpp:52-65 | and after blocks of a class were taken |
| `LargeAllocators.LargeAllocator.Allocate` | src/LargeAllocator.cpp:5-14 | a refused mapping changes nothing, else the payload lies 16 bytes into a fresh mapping that holds the request |
| `LargeAllocators.LargeAllocator.Deallocate` | src/LargeAllocator.cpp:16-19 | true if and only if the payload was known, and then exactly its mapping goes |
| `LargeAllocators.LargeAllocator.PayloadCapacity` | src/LargeAllocator.cpp:26-33 | the mapping less the offset, zero for an unknown payload |
| `CentralStates.CentralState.constructor` | src/CentralState.hpp:14-22 | empty tiers of new objects, without any thread's caches, on a system that may serve others as well, are sound |
| `CentralStates.CentralState.ServeRaw` | src/AllocatorImpl.cpp:219-264 | the tier that the size calls for answers as the facade assumes; it refuses only if the system refused a mapping; a small block is the last of the cache that is given, or of the batch that refills it, or without caches comes from the shard; all other classes and the caches of all other threads are as before; memory that held the tiers' words still does |
| `CentralStates.CentralState.TakeRaw` | src/AllocatorImpl.cpp:266-298 | the tier and class in the header take the block back as the facade assumes; a small block becomes the last of the cache that is given, or without caches the first of the shard; all other classes and the caches of all other threads are as before; memory that held the tiers' words still does |
| `CentralStates.CentralState.ArriveAt` | src/AllocatorImpl.cpp:300-313 | a thread's cache for a class appears, empty, in a step the facade allows; no block moves, and no other thread's caches change |
| `CentralStates.CentralState.LeaveFrom` | src/ThreadCache.cpp:15-21 | what a thread's cache holds of a class goes back to the shard of that class, in a step the facade allows, and no other thread's caches change |
| `CentralStates.NewShards` | src/CentralState.hpp:19 | one empty shard for each class, no two sharing state |
| `Allocators.Allocator.constructor` | src/AllocatorImpl.cpp:20-21 | an allocator over any memory starts valid, made of new objects, with nothing held, nothing reported and no thread's caches |
| `Allocators.Allocator.Allocate` | src/AllocatorImpl.cpp:32-68 | a new pointer joins what the client holds, with the size asked for (1 for 0), filled with 0xCD if there is poisoning, and all contents and books are as before; or SizeOverflow if and only if above 2^46, or OutOfMemory and then the system has refused a mapping; a raw block of up to 4096 bytes is drawn through the cache that is given; the caches of other threads stay |
| `Allocators.Allocator.AlignedAllocate` | src/AllocatorImpl.cpp:159-199 | the same at a multiple of the alignment; InvalidAlignment if and only if that is no power of two up to 2^30 |
| `Allocators.Allocator.Deallocate` | src/AllocatorImpl.cpp:70-129 | accepted if and only if null or held; exactly that block goes and all other contents are as before, HeapCorruption is reported if and only if its guards are damaged, and it is retired if and only if no tier reaches its header and its mapping stays; a small block goes back through the cache that is given; of any other pointer with tracking DoubleFree is reported if it was ever issued, else InvalidPointer; without, DoubleFree if the header below has a tier from 0x51 to 0x55 and the state 0xF4EE, else InvalidPointer; and nothing changes; the caches of other threads stay |
| `Allocators.Allocator.Reallocate` | src/AllocatorImpl.cpp:131-157 | fails without any change, or the block moves with the bytes that fit, and all other contents are as before; the new block is drawn, and then the old one given back, through the cache that is given; the caches of other threads stay |
| `Allocators.Allocator.CopyOver` | src/AllocatorImpl.cpp:147-156 | the copy of a move changes the first bytes of the new block to those of the old one, and nothing else that any client holds, nor the books |
| `Allocators.Allocator.AllocationSize` | src/AllocatorImpl.cpp:201-213 | the size of what is held at the pointer, zero if nothing is; without tracking, what the header says if it looks like that of an issued block |
| `Allocators.Allocator.Write` | src/AllocatorImpl.cpp:32-68 | a client's write changes that byte of that block and nothing else that any client holds, nor the books, and no word of any tier |
| `Allocators.Allocator.ThreadStarts` | src/AllocatorImpl.cpp:300-313 | a thread that has no caches gets its thirty, all of them new and empty; no block moves; contents, books and the caches of other threads stay |
| `Allocators.Allocator.ThreadEnds` | src/ThreadCache.cpp:10-22 | all thirty caches are flushed class by class, each to the shard of its class, and the thread has none; contents, books and the caches of other threads stay |
| `Allocators.Allocator.FreeShimTwice` | src/AllocatorImpl.cpp:70-129 | without tracking, after the first free of a medium block aligned at offset 16 its header can be read if and only if the segments are as before; then the second free is InvalidPointer if the block is still a block, else DoubleFree; and if not, no mapping holds the header |
| `Allocators.Allocator.FreeAll` | src/AllocatorImpl.cpp:70-129 | after any sequence of frees the freed blocks that are retired, so that a further free is a double free, are exactly those whose header no tier reaches and whose memory is still mapped; all small ones are |
| `Allocators.Allocator.Overrun` | src/DebugLayer.hpp:38-53 | a write on a guard byte changes no contents, and the block counts as damaged if and only if there are guards and some byte from 32 to 17 below it, or of the 32 behind it, then is not 0xFB |
| `ClientViews.DamageOnly` | src/DebugLayer.hpp:38-53 | a write on the guards of one block leaves the state of all other guards as it is |
| `ClientViews.DamagedExactly` | src/DebugLayer.hpp:38-53 | a block counts as damaged if and only if it is guarded and one of those 48 bytes is not 0xFB |
| `ClientViews.RelocatedInParts` | src/AllocatorImpl.cpp:147-156 | seen by the client, allocate, copy and free together carry the bytes that fit to the new pointer, retire the old one, and report HeapCorruption if and only if its guards were damaged |
| `ClientViews.ReleaseOnlyFrees` | src/AllocatorImpl.cpp:266-298 | giving a block back maps nothing, and unmaps no run of the small tier |
| `ClientViews.SmallStays` | src/PoolAllocator.cpp:33-39 | the header of a small block is out of the tiers' reach and its run stays mapped |
| `ClientViews.MarkedNext` | src/AllocatorImpl.cpp:90-119 | if exactly the freed blocks with a header out of reach and still mapped are retired, the same holds after one more free |
| `SecondFree.ShimUnmapped` | src/SegmentHeap.cpp:187-200 | when the segment of a freed block is given back, no mapping holds its shim |
| `Threads.OwnsStill` | src/ThreadCache.hpp:11-38 | what leaves a thread's caches alone leaves it their owner, with the blocks they hold |
| `Threads.ThreadedAllocator.constructor` | src/AllocatorImpl.cpp:20-21 | an allocator for any number of threads starts valid and without any caches, with thread caches switched on or off |
| `Threads.ThreadedAllocator.ThreadCache` | src/AllocatorImpl.cpp:300-313 | a thread finds its caches, which are made, empty, if it has none yet, or none at all if they are switched off; nothing that clients hold changes, no block moves, and no other thread's caches change |
| `Threads.ThreadedAllocator.NeedsCaches` | src/AllocatorImpl.cpp:219-279 | thread caches are looked up exactly for a raw request of up to 4096 bytes and for the free of a block of the small tier |
| `Threads.ThreadedAllocator.Do` | src/AllocatorImpl.cpp:32-298 | any public call by any thread, with or without caches, in any state that such calls lead to, has the effect that the call has for one thread; with caches switched on, a thread whose call reaches the small tier has caches from then on, the block it gets is the last of its cache or of the batch of 16 that refills it, the one it frees becomes the last of its cache, and nothing else in caches and shards changes; of a pointer that is not held it reports DoubleFree or InvalidPointer by the registry, or by tier and state of the header |
| `Threads.ThreadedAllocator.CachedInSlots` | src/ThreadCache.hpp:11-38 | what the slot of a thread holds for a class is what the tier counts as cached by it, and a thread without a slot has nothing cached |
| `Threads.ThreadedAllocator.Move` | src/AllocatorImpl.cpp:147-156 | reallocate of a held block by any thread: the new block is drawn and then the old one given back, each through the thread's cache if it is small |
| `Threads.ThreadedAllocator.Write` | src/AllocatorImpl.cpp:32-68 | any thread may write in any block that is held, and nothing else changes |
| `Threads.ThreadedAllocator.AllocationSize` | src/AllocatorImpl.cpp:201-213 | the size of what is held, whichever thread asks |
| `Threads.ThreadedAllocator.ThreadEnds` | src/ThreadCache.cpp:10-22 | a thread that ends gives back what its caches hold, class by class to the shards, and what clients hold stays |
| `Interleaving.StepKeepsInv` | src/AllocatorImpl.cpp:32-129 | every step of any thread keeps the invariant: one holder for each raw block, clients' headers intact, and a call under way finding its raw block as if it had run alone |
| `Interleaving.RunKeepsInv` | src/AllocatorImpl.cpp:32-129 | so does every interleaving of such steps |
| `Interleaving.HeldApart` | src/AllocatorImpl.cpp:32-129 | after any interleaving from the start two held blocks lie in raw blocks that do not overlap |
| `Interleaving.RunKeepsOthers` | src/AllocatorImpl.cpp:32-129 | what a thread or a client holds is left alone, byte for byte, by any steps of all others |
| `Interleaving.ContentsKept` | src/AllocatorImpl.cpp:32-129 | the contents of a block change by its own client's writes only |
| `Interleaving.RanAlone` | src/AllocatorImpl.cpp:219-264 | in the middle of a call, among any steps of others, the raw block is as the thread's own writes alone would leave it |
| `Interleaving.AllocateFinishes` | src/AllocatorImpl.cpp:43-67 | whatever steps of others lie between its writes, once allocate has made them the block may be handed over: all its headers are whole, and nobody holds its pointer |
| `Interleaving.AlignedFinishes` | src/AllocatorImpl.cpp:174-198 | so does alignedAllocate, with a shim |
| `Interleaving.IssueIsNew` | src/AllocatorImpl.cpp:60-67 | a block that is handed over is new among the blocks of all clients |
| `Interleaving.WipeLocal` | src/AllocatorImpl.cpp:92-119 | what deallocate writes before it calls the tier depends on, and changes, nothing but the raw block |

## Left out

- The system calls behind src/SystemMemory.cpp: a mapping is refused or fresh, and the page size is assumed to be a multiple of 16 that divides 64 KiB.
- src/Allocator.cpp, the standard-library allocator and the memory resource: they forward calls.
- Expiry of the central state, threads that outlive it, and exceptions from the standard containers.
- `Interleaving` leaves out the registry and the counters: without tracking there is no registry, and the counters have an interleaving of their own in `Statistics`. A tier's own work in it is one step, as under its lock; two threads that free one pointer at once are left out.
- AllocatorImpls.AllocatorImpl.Deallocate: without tracking, a pointer that is not issued although the bytes below it look like the header of an issued block is left out, because the program would go on to free whatever those bytes name; `AllocatorImpls.AllocatorImpl.Accepts` says exactly which pointers these are.
- AllocatorImpls.AllocatorImpl.Reallocate: the same pointers are left out.
- Allocators.Allocator.Deallocate: the same pointers are left out, as they are in `Allocators.Allocator.Reallocate` and `Threads.ThreadedAllocator.Do`.
- Reading below a pointer into unmapped memory without tracking gives some bytes in the model, where the program would fault; `Allocators.Allocator.FreeShimTwice` tells this case apart.
- Reports to the error handler, to stderr, or by abort: the model keeps a trace of what was reported.
- Rounding in floating-point results, and the internal fragmentation ratio, whose numerator is covered by `FacadeSteps.ReservedAtLeastUsage`.
- Weak-memory effects beyond the interleaving of atomic steps, and wrap-around of the 64-bit counters.
- The segment heap and the free lists work on words of their own, which memory is proved to hold at every step of `Allocators.Allocator`; they do not read the bytes themselves.
