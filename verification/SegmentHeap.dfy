/** The medium tier: 4 MiB segments of boundary-tagged blocks with 18 bins. */
module SegmentHeaps {
  import opened Folding
  import opened Words
  import opened Tags
  import opened SystemMemory
  import opened SegmentLayout
  import opened SegmentBins
  import opened SegmentSteps
  import opened SegmentTheorems
  import opened Sums

  class SegmentHeap {
    const os: Os
    const bins: array<nat>
    var mem: Mem
    var segments: seq<int>

    /** The blocks that the tags describe. The operations go by the tags; the blocks say
        which words are the heap's own. */
    var blocks: Blocks
    /** The blocks that each bin lists. */
    ghost var chains: seq<seq<int>>

    ghost function View(): Layout
      reads this
    {
      Layout(blocks, segments)
    }

    ghost predicate Coherent()
      reads this, bins
    {
      bins.Length == BIN_COUNT && Agree(mem, bins[..], chains, blocks)
    }

    constructor (os: Os)
      ensures Coherent() && this.os == os && fresh(bins)
      ensures View() == Layout(map[], []) && mem == map[]
    {
      this.os := os;
      bins := new nat[BIN_COUNT](_ => 0);
      mem := map[];
      segments := [];
      blocks := map[];
      chains := seq(BIN_COUNT, _ => []);
    }

    /** Every segment is a mapping of the system. */
    ghost predicate Mapped()
      reads this, os
    {
      forall s :: s in segments ==> s in os.mapped && os.mapped[s] == SEGMENT_SIZE
    }

    /** The invariant; it is brought out where it is worked on. */
    ghost predicate Valid()
      reads this, bins, os
    {
      forall key {:trigger Opened(this, key)} :: Opened(this, key) ==> Sound()
    }

    ghost predicate Sound()
      reads this, bins, os
    {
      Coherent() && WellFormed(View()) && os.Valid() && Mapped()
    }

    // The accessors of a block header.

    function SizeAt(block: int): nat
      reads this
    {
      TagSize(Word(mem, block))
    }

    predicate HasAt(block: int, flag: nat)
      reads this
    {
      TagHas(Word(mem, block), flag)
    }

    // --------------------------------------------------------------- free lists

    method InsertFree(block: int)
      requires Coherent() && block in blocks && !blocks[block].free
      modifies this`mem, this`blocks, this`chains, bins
      ensures Coherent()
      ensures blocks == SetFree(old(blocks), block, true)
      ensures var i := BinIndex(old(blocks)[block].size);
              |old(chains)| == BIN_COUNT && chains == old(chains)[i := [block] + old(chains)[i]]
      ensures OnlyMeta(old(mem), mem, {block}, FreeKeys(old(blocks)) + {block})
    {
      ReadTag(mem, blocks, block);
      InsertAgrees(mem, bins[..], chains, blocks, block);
      ghost var k := blocks[block];
      assert TagOK(mem, block, blocks[block]) && Granular(blocks[block]);
      PackedSetFlag(k.size, k.free, First(block, k), Last(block, k), true);
      ghost var m: Mem, heads: seq<nat> := mem, bins[..];
      var index := BinIndex(SizeAt(block));
      var next := bins[index];
      mem := mem[block + NODE_OFFSET := 0][block + NODE_OFFSET + 8 := next];
      if next != 0 {
        mem := mem[next := block + NODE_OFFSET];
      }
      assert mem == LinkFront(m, block, next);
      bins[index] := block + NODE_OFFSET;
      assert bins[..] == heads[index := block + 32];
      HeadAway(m, heads, chains, blocks, block);
      mem := mem[block := TagSetFlag(Word(mem, block), FREE_FLAG, true)];
      chains := chains[index := [block] + chains[index]];
      blocks := SetFree(blocks, block, true);
    }

    method RemoveFree(block: int)
      requires Coherent() && block in blocks && blocks[block].free
      modifies this`mem, this`blocks, this`chains, bins
      ensures Coherent()
      ensures blocks == SetFree(old(blocks), block, false)
      ensures var i := BinIndex(old(blocks)[block].size);
              |old(chains)| == BIN_COUNT && TakenOut(old(chains), chains, i, block)
      ensures OnlyMeta(old(mem), mem, {block}, FreeKeys(old(blocks)))
    {
      ReadTag(mem, blocks, block);
      ghost var i := BinIndex(blocks[block].size);
      ghost var k :| 0 <= k < |chains[i]| && chains[i][k] == block;
      RemoveAgrees(mem, bins[..], chains, blocks, block, k);
      ghost var t := blocks[block];
      assert TagOK(mem, block, blocks[block]) && Granular(blocks[block]);
      PackedSetFlag(t.size, t.free, First(block, t), Last(block, t), false);
      NodeAway(mem, bins[..], chains, blocks, block, k);
      ghost var m: Mem := mem;
      UnlinkNode(block);
      assert mem == Unlink(m, block);
      mem := mem[block := TagSetFlag(Word(mem, block), FREE_FLAG, false)];
      chains := chains[i := Without(chains[i], k)];
      blocks := SetFree(blocks, block, false);
    }

    /** The neighbours in the list, or the head of the bin, are led past the node. */
    method UnlinkNode(block: int)
      requires BinIndex(SizeAt(block)) < bins.Length
      modifies this`mem, bins
      ensures mem == Unlink(old(mem), block)
      ensures bins[..] == if Word(old(mem), block + NODE_OFFSET) != 0 then old(bins[..])
                          else old(bins[..])[BinIndex(old(SizeAt(block))) := Word(old(mem), block + NODE_OFFSET + 8)]
    {
      var prev, next := Word(mem, block + NODE_OFFSET), Word(mem, block + NODE_OFFSET + 8);
      if prev != 0 {
        mem := mem[prev + 8 := next];
      } else {
        bins[BinIndex(SizeAt(block))] := next;
      }
      if next != 0 {
        mem := mem[next := prev];
      }
    }

    // --------------------------------------------------------------- coalescing

    /** left.setSize(left.size + right.size), then left takes right's last flag. */
    method Extend(left: int, right: int)
      requires Coherent() && Adjacent(blocks, left, right) && !blocks[left].free && !blocks[right].free
      modifies this`mem, this`blocks
      ensures Coherent()
      ensures blocks == Absorb(old(blocks), left, right)
      ensures OnlyMeta(old(mem), mem, {left}, {})
    {
      ReadTag(mem, blocks, left);
      ReadTag(mem, blocks, right);
      AbsorbAgrees(mem, bins[..], chains, blocks, left, right);
      AbsorbWord(blocks, left, right);
      assert TagOK(mem, left, blocks[left]);
      ghost var m: Mem := mem;
      mem := mem[left := TagSetSize(Word(mem, left), SizeAt(left) + SizeAt(right))];
      mem := mem[left := TagSetFlag(Word(mem, left), LAST_FLAG, HasAt(right, LAST_FLAG))];
      assert mem == m[left := Word(mem, left)];
      blocks := Absorb(blocks, left, right);
    }

    method CoalesceRight(block: int)
      requires Coherent() && block in blocks && !blocks[block].free && RightOK(blocks, block)
      modifies this`mem, this`blocks, this`chains, bins
      ensures Coherent()
      ensures Joined(old(blocks), blocks, block, MergeEnd(old(blocks), block))
      ensures OnlyMeta(old(mem), mem, old(blocks).Keys, FreeKeys(old(blocks)))
    {
      ReadTag(mem, blocks, block);
      JoinedRight(blocks, block);
      if !HasAt(block, LAST_FLAG) {
        var next := block + SizeAt(block);
        ReadTag(mem, blocks, next);
        if HasAt(next, FREE_FLAG) {
          ghost var m, bs := mem, blocks;
          RemoveFree(next);
          ghost var m1 := mem;
          Extend(block, next);
          OnlyMetaWeaken(m, m1, {next}, FreeKeys(bs), bs.Keys, FreeKeys(bs));
          OnlyMetaWeaken(m1, mem, {block}, {}, bs.Keys, FreeKeys(bs));
          OnlyMetaTrans(m, m1, mem, bs.Keys, FreeKeys(bs));
        }
      }
    }

    method CoalesceLeft(block: int, ghost bs: Blocks, ghost e: int) returns (merged: int)
      requires Coherent() && Shaped(bs) && block in bs && LeftOK(bs, block) && Joined(bs, blocks, block, e)
      modifies this`mem, this`blocks, this`chains, bins
      ensures Coherent()
      ensures merged == MergeStart(bs, block) && Joined(bs, blocks, merged, e)
      ensures OnlyMeta(old(mem), mem, bs.Keys, FreeKeys(bs))
    {
      JoinedLeft(bs, blocks, block, e);
      ReadTag(mem, blocks, block);
      merged := block;
      if !HasAt(block, FIRST_FLAG) {
        var prev := block - Word(mem, block + 8);
        ReadTag(mem, blocks, prev);
        if HasAt(prev, FREE_FLAG) {
          ghost var m, bs1 := mem, blocks;
          RemoveFree(prev);
          ghost var m1 := mem;
          Extend(prev, block);
          JoinedFree(bs, bs1, block, e);
          OnlyMetaWeaken(m, m1, {prev}, FreeKeys(bs1), bs.Keys, FreeKeys(bs));
          OnlyMetaWeaken(m1, mem, {prev}, {}, bs.Keys, FreeKeys(bs));
          OnlyMetaTrans(m, m1, mem, bs.Keys, FreeKeys(bs));
          merged := prev;
        }
      }
    }

    /** The right neighbour learns the size of block. */
    method Relink(block: int)
      requires Coherent() && block in blocks
      requires !Last(block, blocks[block]) ==> block + blocks[block].size in blocks
      modifies this`mem, this`blocks
      ensures Coherent()
      ensures blocks == Relinked(old(blocks), block)
      ensures OnlyMeta(old(mem), mem, old(blocks).Keys, {})
    {
      ReadTag(mem, blocks, block);
      if !HasAt(block, LAST_FLAG) {
        var next := block + SizeAt(block);
        RelinkAgrees(mem, bins[..], chains, blocks, next, SizeAt(block));
        OnlyMetaWeaken(mem, mem[next + 8 := SizeAt(block)], {next}, {}, blocks.Keys, {});
        blocks := SetPrev(blocks, next, SizeAt(block), true);
        mem := mem[next + 8 := SizeAt(block)];
      }
    }

    // ---------------------------------------------------------------- releasing

    /** A wholly free segment goes back to the system unless it is the only one. The
        search always finds the segment, so re-inserting after it never happens. */
    method ReleaseSegment(block: int)
      requires Coherent() && os.Valid() && SegsApart(segments)
      requires block in blocks && !blocks[block].free && Whole(block, blocks[block])
      requires block in segments && block in os.mapped
      modifies this`mem, this`blocks, this`chains, this`segments, bins, os
      ensures Coherent() && os.Valid() && os.refusals == old(os.refusals)
      ensures View() == Settle(old(View()), block) && (block in blocks ==> Leads(blocks, chains, block) == true)
      ensures os.mapped == if |old(segments)| > 1 then old(os.mapped) - {block} else old(os.mapped)
      ensures if block in blocks then OnlyMeta(old(mem), mem, {block}, FreeKeys(old(blocks)) + {block})
              else mem == old(mem)
    {
      if |segments| <= 1 {
        InsertFree(block);
        return;
      }
      var i := 0;
      assert segments[..0] + Erase(segments[0..], block) == Erase(segments, block);
      while i < |segments|
        invariant 0 <= i <= |segments| && block !in segments[..i]
        invariant segments[..i] + Erase(segments[i..], block) == Erase(segments, block)
        invariant segments == old(segments) && blocks == old(blocks) && mem == old(mem)
        invariant Coherent() && os.Valid() && os.mapped == old(os.mapped) && os.refusals == old(os.refusals)
      {
        EraseStep(segments, block, i);
        if segments[i] == block {
          DropAgrees(mem, bins[..], chains, blocks, block);
          segments := segments[..i] + segments[i + 1..];
          blocks := blocks - {block};
          os.Unmap(block);
          return;
        }
        i := i + 1;
      }
      assert false;
    }

    // ----------------------------------------------------------------- searching

    method FindFit(total: nat) returns (block: int, ghost i: int, ghost k: int)
      requires Coherent()
      ensures block == 0 ==> forall x :: !FreeFit(View(), x, total)
      ensures block != 0 ==> FirstFit(blocks, chains, total, i, k) && chains[i][k] == block
      ensures block != 0 ==> FreeFit(View(), block, total)
      ensures block != 0 ==> forall x :: FreeFit(View(), x, total) ==> blocks[block].size < 2 * blocks[x].size
    {
      i, k := 0, 0;
      var index := BinIndex(total);
      while index < BIN_COUNT
        invariant BinIndex(total) <= index <= BIN_COUNT
        invariant forall j {:trigger chains[j]} :: BinIndex(total) <= j < index ==>
                    NoneFits(blocks, chains[j], |chains[j]|, total)
      {
        block, k := SearchBin(index, total);
        if block != 0 {
          i := index;
          forall x | FreeFit(View(), x, total)
            ensures blocks[block].size < 2 * blocks[x].size
          {
            FirstFitWithinTwice(mem, bins[..], chains, blocks, total, i, k, x);
          }
          return;
        }
        index := index + 1;
      }
      NothingFits(mem, bins[..], chains, blocks, total);
      block := 0;
    }

    method SearchBin(index: nat, total: nat) returns (block: int, ghost k: int)
      requires Coherent() && index < BIN_COUNT
      ensures |chains| == BIN_COUNT
      ensures block == 0 ==> NoneFits(blocks, chains[index], |chains[index]|, total)
      ensures block != 0 ==> 0 <= k < |chains[index]| && chains[index][k] == block &&
                             InBin(blocks, block, index) && blocks[block].size >= total &&
                             NoneFits(blocks, chains[index], k, total)
    {
      ghost var q := chains[index];
      assert BinOK(mem, bins[..][index], q, blocks, index);
      var node := bins[index];
      k := 0;
      while node != 0
        invariant 0 <= k <= |q| && NoneFits(blocks, q, k, total)
        invariant node == if k == |q| then 0 else q[k] + 32
        decreases |q| - k
      {
        block := node - NODE_OFFSET;
        assert LinkOK(mem, q, k) && InBin(blocks, q[k], index);
        ReadTag(mem, blocks, block);
        if SizeAt(block) >= total {
          return;
        }
        node := Word(mem, node + 8);
        k := k + 1;
      }
      block := 0;
    }

    // ----------------------------------------------------------------- splitting

    method SplitBlock(block: int, total: nat)
      requires Coherent() && block in blocks && !blocks[block].free && RightOK(blocks, block)
      requires Request(total) && total <= blocks[block].size
      modifies this`mem, this`blocks, this`chains, bins
      ensures Coherent()
      ensures var k := old(blocks)[block];
              blocks == if k.size - total < MIN_BLOCK_SIZE then old(blocks)
                        else Split(old(blocks), block, total)
      ensures OnlyMeta(old(mem), mem, old(blocks).Keys + blocks.Keys, FreeKeys(old(blocks)) + FreeKeys(blocks))
    {
      ReadTag(mem, blocks, block);
      var remainder := SizeAt(block) - total;
      if remainder < MIN_BLOCK_SIZE {
        return;
      }
      ghost var bs, m0 := blocks, mem;
      SplitAgrees(mem, bins[..], chains, blocks, block, total);
      SplitTagWords(mem, blocks, block, total);
      WriteSplit(block, total);
      blocks := SplitTaken(blocks, block, total);
      ghost var m1 := mem;
      SplitDone(bs, block, total);
      assert SetFree(bs, block, false) == bs;
      InsertFree(block + total);
      SplitFrame(bs, block, total, m0, m1, mem);
    }

    /** The header writes of splitBlock: the rest gets a fresh tag, the block shrinks, and
        the block after the rest learns the size of the rest. */
    method WriteSplit(block: int, total: nat)
      requires block in blocks && 0 < total && total + MIN_BLOCK_SIZE <= blocks[block].size
      requires SizeAt(block) == blocks[block].size && HasAt(block, LAST_FLAG) == Last(block, blocks[block])
      requires SplitTagFacts(Word(mem, block), block, blocks[block], total)
      modifies this`mem
      ensures mem == SplitWords(old(mem), blocks, block, total)
    {
      var remainder := SizeAt(block) - total;
      var rest := block + total;
      var restWord := TagSetFlag(TagSetSize(0, remainder), LAST_FLAG, HasAt(block, LAST_FLAG));
      var blockWord := TagSetFlag(TagSetSize(Word(mem, block), total), LAST_FLAG, false);
      mem := mem[rest := restWord][rest + 8 := total][block := blockWord];
      assert SizeAt(rest) == remainder && HasAt(rest, LAST_FLAG) == Last(block, blocks[block]);
      if !HasAt(rest, LAST_FLAG) {
        mem := mem[rest + SizeAt(rest) + 8 := remainder];
      }
    }

    // --------------------------------------------------------------- allocating

    /** removeFree, then splitBlock. */
    method Take(block: int, total: nat)
      requires Coherent() && Tiled(View()) && FreeFit(View(), block, total) && Request(total)
      modifies this`mem, this`blocks, this`chains, bins
      ensures Coherent()
      ensures View() == AllocAt(old(View()), block, total)
      ensures OnlyMeta(old(mem), mem, old(blocks).Keys + blocks.Keys, FreeKeys(old(blocks)) + FreeKeys(blocks))
    {
      assert Opened(View(), 0);
      ghost var l, m0 := View(), mem;
      assert RightOK(blocks, block);
      TakeSteps(l, block, total);
      RemoveFree(block);
      ghost var bs1, m1 := blocks, mem;
      SplitBlock(block, total);
      TakeFrame(l.blocks, block, bs1, blocks, m0, m1, mem);
    }

    /** addSegment: nothing happens when the system refuses. */
    method MapSegment() returns (base: int)
      requires Valid()
      modifies this`mem, this`blocks, this`chains, this`segments, bins, os
      ensures Coherent() && os.Valid() && Mapped()
      ensures base == 0 ==> View() == old(View()) && mem == old(mem) && os.mapped == old(os.mapped) &&
                            os.refusals == old(os.refusals) + 1
      ensures base != 0 ==> FreshBase(old(View()), base) && Fresh(old(os.mapped), base, SEGMENT_SIZE) &&
                            View() == AddSegment(old(View()), base) &&
                            os.mapped == old(os.mapped)[base := SEGMENT_SIZE] && os.refusals == old(os.refusals)
      ensures base != 0 ==> OnlyMeta(old(mem), mem, {base}, FreeKeys(old(blocks)) + {base})
    {
      assert Opened(this, 0);
      ghost var mapped := os.mapped;
      RoundedWhole(SEGMENT_SIZE, os.page);
      base := os.Map(SEGMENT_SIZE);
      if base == 0 {
        return;
      }
      FreshFromSystem(View(), mapped, base);
      AddBlock(base);
      segments := segments + [base];
    }

    /** The header of a new segment's only block, and its bin. */
    method AddBlock(base: int)
      requires Coherent() && base > 0
      requires forall x :: x in blocks ==> base + SEGMENT_SIZE <= x || x + blocks[x].size <= base
      modifies this`mem, this`blocks, this`chains, bins
      ensures Coherent() && blocks == Added(old(blocks), base)
      ensures OnlyMeta(old(mem), mem, {base}, FreeKeys(old(blocks)) + {base})
    {
      ghost var bs, m0 := blocks, mem;
      AddAgrees(mem, bins[..], chains, blocks, base);
      AddWord();
      var word := TagSetFlag(TagSetFlag(TagSetSize(0, SEGMENT_SIZE), FIRST_FLAG, true), LAST_FLAG, true);
      mem := mem[base := word][base + 8 := 0];
      blocks := blocks[base := Blk(SEGMENT_SIZE, 0, false, base)];
      ghost var m1 := mem;
      assert FreeKeys(blocks) == FreeKeys(bs);
      InsertFree(base);
      OnlyMetaWeaken(m0, m1, {base}, {}, {base}, FreeKeys(bs) + {base});
      OnlyMetaTrans(m0, m1, mem, {base}, FreeKeys(bs) + {base});
    }

    /** allocate: fails only when the rounded request exceeds a segment, or when no free
        block fits and the system refuses a segment. No live payload is touched. */
    method Allocate(bytes: nat) returns (payload: int)
      requires Valid() && bytes < WORD
      modifies this`mem, this`blocks, this`chains, this`segments, bins, os
      ensures Valid()
      ensures payload == 0 ==> View() == old(View()) && mem == old(mem) && os.mapped == old(os.mapped)
      ensures payload == 0 ==>
                RoundedTotal(bytes) > SEGMENT_SIZE ||
                (os.refusals > old(os.refusals) && forall x :: !FreeFit(old(View()), x, RoundedTotal(bytes)))
      ensures payload != 0 ==> Granted(old(View()), View(), payload - BLOCK_HEADER_SIZE, RoundedTotal(bytes)) == true
      ensures payload != 0 && segments == old(segments) ==>
                FoundFirst(old(blocks), old(chains), RoundedTotal(bytes), payload - BLOCK_HEADER_SIZE) == true
      ensures payload != 0 ==> Request(RoundedTotal(bytes)) && payload > BLOCK_HEADER_SIZE
      ensures payload != 0 && segments == old(segments) ==> os.mapped == old(os.mapped)
      ensures payload != 0 && segments != old(segments) ==>
                && Fresh(old(os.mapped), payload - BLOCK_HEADER_SIZE, SEGMENT_SIZE)
                && os.mapped == old(os.mapped)[payload - BLOCK_HEADER_SIZE := SEGMENT_SIZE]
      ensures payload != 0 ==> OnlyMeta(old(mem), mem, blocks.Keys, NotHeld(old(blocks), blocks))
      ensures forall c :: IsLive(old(View()), c) ==>
                Untouched(old(mem), mem, c + BLOCK_HEADER_SIZE, c + old(blocks)[c].size)
    {
      var total := RoundedTotal(bytes);
      if total > SEGMENT_SIZE {
        return 0;
      }
      RoundedIsRequest(bytes);
      var block := AllocateTotal(total);
      payload := if block == 0 then 0 else block + BLOCK_HEADER_SIZE;
    }

    method AllocateTotal(total: nat) returns (block: int)
      requires Valid() && Request(total)
      modifies this`mem, this`blocks, this`chains, this`segments, bins, os
      ensures Valid() && block >= 0
      ensures block == 0 ==> View() == old(View()) && mem == old(mem) && os.mapped == old(os.mapped)
      ensures block == 0 ==> os.refusals > old(os.refusals) && forall x :: !FreeFit(old(View()), x, total)
      ensures block != 0 ==> Granted(old(View()), View(), block, total) == true
      ensures block != 0 && segments == old(segments) ==> FoundFirst(old(blocks), old(chains), total, block) == true
      ensures block != 0 && segments == old(segments) ==> os.mapped == old(os.mapped)
      ensures block != 0 && segments != old(segments) ==>
                && Fresh(old(os.mapped), block, SEGMENT_SIZE)
                && os.mapped == old(os.mapped)[block := SEGMENT_SIZE]
      ensures block != 0 ==> OnlyMeta(old(mem), mem, blocks.Keys, NotHeld(old(blocks), blocks))
      ensures forall c :: IsLive(old(View()), c) ==>
                Untouched(old(mem), mem, c + BLOCK_HEADER_SIZE, c + old(blocks)[c].size)
    {
      assert Opened(this, 0);
      var found, i, k := FindFit(total);
      block := found;
      if block == 0 {
        block := TakeNew(total);
      } else {
        TakeExisting(block, total);
      }
    }

    method TakeExisting(block: int, total: nat)
      requires Valid() && FreeFit(View(), block, total) && Request(total)
      modifies this`mem, this`blocks, this`chains, bins
      ensures Valid() && block > 0
      ensures View() == AllocAt(old(View()), block, total) && segments == old(segments)
      ensures OnlyMeta(old(mem), mem, blocks.Keys, NotHeld(old(blocks), blocks))
      ensures forall c :: IsLive(old(View()), c) ==>
                Untouched(old(mem), mem, c + BLOCK_HEADER_SIZE, c + old(blocks)[c].size)
    {
      assert Opened(this, 0);
      ghost var l, m := View(), mem;
      AllocKeepsWellFormed(l, block, total);
      Take(block, total);
      ghost var k := blocks[block];
      TakenFrame(l, View(), block, Held(k.size, k.home), m, mem);
      AllocGrows(l, block, total);
      TakenMeta(l, View(), block, Held(k.size, k.home), m, mem);
    }

    /** The second search finds the block of the segment just added. */
    method TakeNew(total: nat) returns (block: int)
      requires Valid() && Request(total) && forall x :: !FreeFit(View(), x, total)
      modifies this`mem, this`blocks, this`chains, this`segments, bins, os
      ensures Valid()
      ensures block == 0 ==> View() == old(View()) && mem == old(mem) && os.mapped == old(os.mapped) &&
                             os.refusals > old(os.refusals)
      ensures block != 0 ==> FreshBase(old(View()), block) && Fresh(old(os.mapped), block, SEGMENT_SIZE) &&
                             View() == AllocAt(AddSegment(old(View()), block), block, total) &&
                             os.mapped == old(os.mapped)[block := SEGMENT_SIZE] && segments != old(segments)
      ensures block != 0 ==> OnlyMeta(old(mem), mem, blocks.Keys, NotHeld(old(blocks), blocks))
      ensures forall c :: IsLive(old(View()), c) ==>
                Untouched(old(mem), mem, c + BLOCK_HEADER_SIZE, c + old(blocks)[c].size)
    {
      assert Opened(this, 0);
      ghost var l, m0 := View(), mem;
      var base := MapSegment();
      if base == 0 {
        return 0;
      }
      ghost var m1 := mem;
      AddLive(l, base);
      AllocFreshKeepsWellFormed(l, base, total);
      block := FindOnly(l, base, total);
      Take(block, total);
      FreshFrame(l, base, View(), Held(blocks[base].size, base), m0, m1, mem);
      AllocGrows(AddSegment(l, base), base, total);
      FreshMeta(l, base, View(), Held(blocks[base].size, base), m0, m1, mem);
    }

    method FindOnly(ghost l: Layout, base: int, total: nat) returns (block: int)
      requires Coherent() && View() == AddSegment(l, base) && total <= SEGMENT_SIZE
      requires forall x :: !FreeFit(l, x, total)
      ensures block == base
    {
      var found, i, k := FindFit(total);
      block := found;
      assert FreeFit(View(), base, total);
      assert block != base ==> FreeFit(l, block, total);
    }

    /** deallocate: the payload's block merges with its free neighbours; nothing but
        tags, and nodes of blocks that are free or being freed, is written. The first words
        of the payload become list links if the block stays a block, and are left alone if
        it is swallowed from the left or its segment is given back. */
    method Deallocate(payload: int)
      requires Valid() && IsLive(View(), payload - BLOCK_HEADER_SIZE)
      modifies this`mem, this`blocks, this`chains, this`segments, bins, os
      ensures Valid() && os.refusals == old(os.refusals)
      ensures old(blocks)[payload - BLOCK_HEADER_SIZE].size > 0
      ensures View() == FreeAt(old(View()), payload - BLOCK_HEADER_SIZE)
      ensures var c := MergeStart(old(blocks), payload - BLOCK_HEADER_SIZE); c in blocks ==> Leads(blocks, chains, c) == true
      ensures os.mapped == if segments == old(segments) then old(os.mapped)
                           else old(os.mapped) - {old(blocks)[payload - BLOCK_HEADER_SIZE].home}
      ensures OnlyMeta(old(mem), mem, old(blocks).Keys, FreedNodes(old(View()), payload - BLOCK_HEADER_SIZE))
      ensures if payload - BLOCK_HEADER_SIZE in blocks then NodeLinks(mem, blocks, payload - BLOCK_HEADER_SIZE)
              else Untouched(old(mem), mem, payload, payload - BLOCK_HEADER_SIZE + old(blocks)[payload - BLOCK_HEADER_SIZE].size)
      ensures forall c :: IsLive(old(View()), c) && c != payload - BLOCK_HEADER_SIZE ==>
                Untouched(old(mem), mem, c + BLOCK_HEADER_SIZE, c + old(blocks)[c].size)
      ensures forall c :: Clear(old(blocks), c) ==>
                Clear(blocks, c) && Untouched(old(mem), mem, c + BLOCK_HEADER_SIZE, c + NODE_OFFSET)
    {
      assert Opened(this, 0);
      assert Opened(View(), 0);
      var block := payload - BLOCK_HEADER_SIZE;
      ghost var l, m0 := View(), mem;
      FreeWhole(block);
      FreedFrame(l, block, m0, mem);
      if block in blocks {
        FreedIsFree(l, block);
        FreeHasLinks(mem, bins[..], chains, blocks, block);
      } else {
        SwallowedKept(l, block, m0, mem);
      }
    }

    /** The whole of deallocate, for the block of the payload. */
    method FreeWhole(block: int)
      requires Valid() && IsLive(View(), block)
      modifies this`mem, this`blocks, this`chains, this`segments, bins, os
      ensures Valid() && os.refusals == old(os.refusals) && old(blocks)[block].size > 0
      ensures View() == FreeAt(old(View()), block)
      ensures var c := MergeStart(old(blocks), block); c in blocks ==> Leads(blocks, chains, c) == true
      ensures os.mapped == if segments == old(segments) then old(os.mapped)
                           else old(os.mapped) - {old(blocks)[block].home}
      ensures OnlyMeta(old(mem), mem, old(blocks).Keys, FreedNodes(old(View()), block))
    {
      assert Opened(this, 0);
      assert Opened(View(), 0);
      ghost var l, m0 := View(), mem;
      assert blocks[block].home in segments;
      FreeKeepsWellFormed(l, block);
      var merged := Coalesce(block);
      ghost var bs, m3 := blocks, mem;
      FinishFree(merged);
      SettleIgnoresFlag(l, Merge(l.blocks, merged, MergeEnd(l.blocks, block)), merged);
      FrameLast(l, bs, block, merged, m0, m3, mem);
    }

    /** The block grows over its free neighbours and the next block learns its size. */
    method Coalesce(block: int) returns (merged: int)
      requires Coherent() && WellFormed(View()) && IsLive(View(), block)
      modifies this`mem, this`blocks, this`chains, bins
      ensures Coherent()
      ensures merged == MergeStart(old(blocks), block) < MergeEnd(old(blocks), block)
      ensures blocks == SetFree(Merge(old(blocks), merged, MergeEnd(old(blocks), block)), merged, false)
      ensures blocks[merged].home == old(blocks)[block].home
      ensures OnlyMeta(old(mem), mem, old(blocks).Keys, FreeKeys(old(blocks)))
    {
      assert Opened(View(), 0);
      ghost var bs, m0 := blocks, mem;
      ghost var e := MergeEnd(bs, block);
      FreeRange(bs, block);
      merged := Grow(block);
      ghost var m2, keys := mem, blocks.Keys;
      JoinedNext(bs, blocks, merged, e);
      JoinedRelinked(bs, blocks, merged, e);
      JoinedFree(bs, blocks, merged, e);
      Relink(merged);
      GrowFrame(bs, keys, m0, m2, mem);
    }

    /** Both coalescing steps. */
    method Grow(block: int) returns (merged: int)
      requires Coherent() && Linked(blocks) && block in blocks && !blocks[block].free
      modifies this`mem, this`blocks, this`chains, bins
      ensures Coherent()
      ensures merged == MergeStart(old(blocks), block)
      ensures Joined(old(blocks), blocks, merged, MergeEnd(old(blocks), block))
      ensures OnlyMeta(old(mem), mem, old(blocks).Keys, FreeKeys(old(blocks)))
    {
      ghost var bs, m0 := blocks, mem;
      assert RightOK(bs, block) && LeftOK(bs, block);
      CoalesceRight(block);
      ghost var m1 := mem;
      merged := CoalesceLeft(block, bs, MergeEnd(bs, block));
      OnlyMetaTrans(m0, m1, mem, bs.Keys, FreeKeys(bs));
    }

    method FinishFree(block: int)
      requires Coherent() && os.Valid() && Mapped() && SegsApart(segments)
      requires block in blocks && !blocks[block].free && blocks[block].home in segments
      modifies this`mem, this`blocks, this`chains, this`segments, bins, os
      ensures Coherent() && os.Valid() && Mapped() && os.refusals == old(os.refusals)
      ensures View() == Settle(old(View()), block) && (block in blocks ==> Leads(blocks, chains, block) == true)
      ensures os.mapped == if segments == old(segments) then old(os.mapped) else old(os.mapped) - {block}
      ensures segments != old(segments) ==> block == old(blocks)[block].home
      ensures if block in blocks then OnlyMeta(old(mem), mem, {block}, FreeKeys(old(blocks)) + {block})
              else mem == old(mem)
    {
      ReadTag(mem, blocks, block);
      if HasAt(block, FIRST_FLAG) && HasAt(block, LAST_FLAG) {
        EraseMembers(segments, block);
        ReleaseSegment(block);
      } else {
        InsertFree(block);
      }
    }

    /** A client, or a layer above, writes a word of a payload that is handed out. */
    method Write(a: int, word: nat, ghost block: int)
      requires Valid() && IsLive(View(), block)
      requires block + BLOCK_HEADER_SIZE <= a && a + 8 <= block + blocks[block].size
      modifies this`mem
      ensures Valid() && mem == old(mem)[a := word]
    {
      assert Opened(this, 0);
      PayloadWriteAgrees(mem, bins[..], chains, blocks, block, a, word);
      mem := mem[a := word];
    }

    // ------------------------------------------------------------------ inspection

    method PayloadCapacity(payload: int) returns (capacity: nat)
      requires Coherent() && payload - BLOCK_HEADER_SIZE in blocks
      ensures capacity == blocks[payload - BLOCK_HEADER_SIZE].size - BLOCK_HEADER_SIZE
    {
      ReadTag(mem, blocks, payload - BLOCK_HEADER_SIZE);
      capacity := SizeAt(payload - BLOCK_HEADER_SIZE) - BLOCK_HEADER_SIZE;
    }

    /** externalFragmentation: one minus the largest free block over all free bytes, which
        are the mapped bytes that are not live. */
    method ExternalFragmentation() returns (result: real, largest: nat, total: nat)
      requires Valid()
      ensures total == |segments| * SEGMENT_SIZE - Sum(LiveSet(View()), Sizes(blocks))
      ensures total == 0 <==> FreeKeys(blocks) == {}
      ensures IsLargest(blocks, FreeKeys(blocks), largest)
      ensures 0.0 <= result < 1.0
      ensures result == if total == 0 then 0.0 else 1.0 - largest as real / total as real
    {
      assert Opened(this, 0);
      total, largest := Totals();
      TallyTotal(View(), total, largest);
      result := if total == 0 then 0.0 else 1.0 - largest as real / total as real;
      RatioBounds(largest, total);
    }

    /** The loop over the bins. */
    method Totals() returns (total: nat, largest: nat)
      requires Coherent()
      ensures Counted(blocks, BIN_COUNT, total, largest) == true
    {
      CountedNone(blocks);
      total, largest := 0, 0;
      var index := 0;
      while index < BIN_COUNT
        invariant 0 <= index <= BIN_COUNT
        invariant Counted(blocks, index, total, largest) == true
      {
        total, largest := CountBin(index, total, largest);
        index := index + 1;
      }
    }

    method CountBin(index: nat, total0: nat, largest0: nat) returns (total: nat, largest: nat)
      requires Coherent() && index < BIN_COUNT && Counted(blocks, index, total0, largest0) == true
      ensures Counted(blocks, index + 1, total, largest) == true
    {
      BinTally(mem, bins[..], chains, blocks, index, total0, largest0);
      total, largest := AddBin(index, total0, largest0);
    }

    /** The inner loop: one bin. */
    method AddBin(index: nat, total0: nat, largest0: nat) returns (total: nat, largest: nat)
      requires Coherent() && index < BIN_COUNT
      ensures |chains| == BIN_COUNT
      ensures var q := chains[index];
              total == total0 + ChainTotal(blocks, q, |q|) && largest == ChainMax(blocks, q, |q|, largest0)
    {
      total, largest := total0, largest0;
      ghost var q := chains[index];
      assert BinOK(mem, bins[..][index], q, blocks, index);
      var node := bins[index];
      ghost var k := 0;
      while node != 0
        invariant 0 <= k <= |q| && node == if k == |q| then 0 else q[k] + 32
        invariant total == total0 + ChainTotal(blocks, q, k) && largest == ChainMax(blocks, q, k, largest0)
        decreases |q| - k
      {
        var block := node - NODE_OFFSET;
        assert LinkOK(mem, q, k) && InBin(blocks, q[k], index);
        ReadTag(mem, blocks, block);
        var size := SizeAt(block);
        total := total + size;
        largest := if size > largest then size else largest;
        node := Word(mem, node + 8);
        k := k + 1;
      }
    }
  }
}
