/** How tags and free-list nodes lie in the words of the segments, and how linking
    and unlinking one node changes the bins. */
module SegmentBins {
  import opened Sums
  import opened Tags
  import opened SegmentLayout

  /** The 8-byte words of the mapped segments. */
  type Mem = map<int, nat>

  function Word(m: Mem, a: int): nat {
    if a in m then m[a] else 0
  }

  // ------------------------------------------------------------------------ tags

  ghost predicate TagOK(m: Mem, b: int, k: Blk) {
    Word(m, b) == Pack(k.size, k.free, First(b, k), Last(b, k)) && Word(m, b + 8) == k.prev
  }

  ghost predicate TagsOK(m: Mem, blocks: Blocks) {
    forall b {:trigger TagOK(m, b, blocks[b])} :: b in blocks ==> TagOK(m, b, blocks[b])
  }

  ghost predicate Positive(blocks: Blocks) {
    forall b :: b in blocks ==> b > 0
  }

  /** What the header accessors read at a block. */
  lemma ReadTag(m: Mem, blocks: Blocks, b: int)
    requires Shaped(blocks) && TagsOK(m, blocks) && b in blocks
    ensures TagSize(Word(m, b)) == blocks[b].size
    ensures TagHas(Word(m, b), FREE_FLAG) == blocks[b].free
    ensures TagHas(Word(m, b), FIRST_FLAG) == First(b, blocks[b])
    ensures TagHas(Word(m, b), LAST_FLAG) == Last(b, blocks[b])
    ensures Word(m, b + 8) == blocks[b].prev
  {
    var k := blocks[b];
    assert TagOK(m, b, blocks[b]) && Granular(blocks[b]);
    PackedReads(k.size, k.free, First(b, k), Last(b, k));
  }

  // ------------------------------------------------------------------------ bins

  /** Node k of the chain q points to its neighbours. */
  ghost predicate LinkOK(m: Mem, q: seq<int>, k: int)
    requires 0 <= k < |q|
  {
    && Word(m, q[k] + 32) == (if k == 0 then 0 else q[k - 1] + 32)
    && Word(m, q[k] + 40) == (if k + 1 == |q| then 0 else q[k + 1] + 32)
  }

  /** The doubly linked list from head visits exactly the blocks of q, in order. */
  ghost predicate ChainOK(m: Mem, head: nat, q: seq<int>) {
    && head == (if q == [] then 0 else q[0] + 32)
    && forall k :: 0 <= k < |q| ==> LinkOK(m, q, k)
  }

  ghost predicate InBin(blocks: Blocks, c: int, i: int) {
    c in blocks && blocks[c].free && BinIndex(blocks[c].size) == i
  }

  ghost predicate Listed(blocks: Blocks, q: seq<int>, i: int) {
    forall k :: 0 <= k < |q| ==> InBin(blocks, q[k], i)
  }

  ghost predicate Complete(blocks: Blocks, chains: seq<seq<int>>)
    requires |chains| == BIN_COUNT
  {
    forall b :: b in blocks && blocks[b].free ==> b in chains[BinIndex(blocks[b].size)]
  }

  ghost predicate BinOK(m: Mem, head: nat, q: seq<int>, blocks: Blocks, i: int) {
    ChainOK(m, head, q) && Listed(blocks, q, i) && NoDup(q)
  }

  /** The bins hold exactly the free blocks, each once, in the bin of its size. */
  ghost predicate BinsOK(m: Mem, heads: seq<nat>, chains: seq<seq<int>>, blocks: Blocks) {
    && |heads| == BIN_COUNT && |chains| == BIN_COUNT
    && (forall i {:trigger chains[i]} :: 0 <= i < BIN_COUNT ==> BinOK(m, heads[i], chains[i], blocks, i))
    && Complete(blocks, chains)
  }

  // --------------------------------------------------------------------- framing

  ghost predicate SameNodes(m: Mem, m': Mem, q: seq<int>) {
    forall k :: 0 <= k < |q| ==>
      Word(m', q[k] + 32) == Word(m, q[k] + 32) && Word(m', q[k] + 40) == Word(m, q[k] + 40)
  }

  lemma ChainFrame(m: Mem, m': Mem, head: nat, q: seq<int>)
    requires ChainOK(m, head, q) && SameNodes(m, m', q)
    ensures ChainOK(m', head, q)
  {
    forall k | 0 <= k < |q|
      ensures LinkOK(m', q, k)
    {
      assert LinkOK(m, q, k);
    }
  }

  /** The words an operation may write: the tags of the blocks in tags and the
      nodes of the blocks in nodes. */
  predicate Meta(tags: set<int>, nodes: set<int>, a: int) {
    a in tags || a - 8 in tags || a - 32 in nodes || a - 40 in nodes
  }

  ghost predicate OnlyMeta(m: Mem, m': Mem, tags: set<int>, nodes: set<int>) {
    forall a :: Word(m', a) != Word(m, a) ==> Meta(tags, nodes, a)
  }

  lemma OnlyMetaTrans(m: Mem, m': Mem, m'': Mem, tags: set<int>, nodes: set<int>)
    requires OnlyMeta(m, m', tags, nodes) && OnlyMeta(m', m'', tags, nodes)
    ensures OnlyMeta(m, m'', tags, nodes)
  {
    forall a | Word(m'', a) != Word(m, a)
      ensures Meta(tags, nodes, a)
    {
      assert Word(m', a) != Word(m, a) || Word(m'', a) != Word(m', a);
    }
  }

  lemma OnlyMetaWeaken(m: Mem, m': Mem, tags: set<int>, nodes: set<int>, tags': set<int>, nodes': set<int>)
    requires OnlyMeta(m, m', tags, nodes) && tags <= tags' && nodes <= nodes'
    ensures OnlyMeta(m, m', tags', nodes')
  {
    forall a | Word(m', a) != Word(m, a)
      ensures Meta(tags', nodes', a)
    {
      assert Meta(tags, nodes, a);
    }
  }

  // ------------------------------------------------------------------- insertion

  /** The words after linking b in front of the node at head. */
  function LinkFront(m: Mem, b: int, head: nat): Mem
    requires b > 0
  {
    var linked := m[b + 32 := 0][b + 40 := head];
    if head != 0 then linked[head := b + 32] else linked
  }

  ghost predicate Spaced(b: int, q: seq<int>) {
    forall k :: 0 <= k < |q| ==> b + 48 <= q[k] || q[k] + 48 <= b
  }

  ghost predicate SelfSpaced(q: seq<int>) {
    forall j, k :: 0 <= j < |q| && 0 <= k < |q| && j != k ==> q[j] + 48 <= q[k] || q[k] + 48 <= q[j]
  }

  lemma LinkFrontChain(m: Mem, b: int, head: nat, q: seq<int>)
    requires ChainOK(m, head, q) && b > 0 && Spaced(b, q) && SelfSpaced(q)
    requires forall k :: 0 <= k < |q| ==> q[k] > 0
    ensures ChainOK(LinkFront(m, b, head), b + 32, [b] + q)
  {
    var m', q' := LinkFront(m, b, head), [b] + q;
    forall k | 0 <= k < |q'|
      ensures LinkOK(m', q', k)
    {
      if k > 0 {
        assert LinkOK(m, q, k - 1);
        assert q'[k] == q[k - 1];
      }
    }
  }

  lemma LinkFrontOthers(m: Mem, b: int, head: nat, q: seq<int>)
    requires b > 0 && Spaced(b, q)
    requires head == 0 || Spaced(head - 32, q)
    ensures SameNodes(m, LinkFront(m, b, head), q)
  {}

  lemma ListedSpaced(blocks: Blocks, q: seq<int>, i: int, b: int)
    requires Shaped(blocks) && Listed(blocks, q, i) && b in blocks
    requires forall k :: 0 <= k < |q| ==> q[k] != b
    ensures Spaced(b, q)
  {
    Around(blocks, b);
  }

  lemma ListedSelfSpaced(blocks: Blocks, q: seq<int>, i: int)
    requires Shaped(blocks) && Listed(blocks, q, i) && NoDup(q)
    ensures SelfSpaced(q)
  {
    forall j, k | 0 <= j < |q| && 0 <= k < |q| && j != k
      ensures q[j] + 48 <= q[k] || q[k] + 48 <= q[j]
    {
      assert InBin(blocks, q[j], i) && InBin(blocks, q[k], i);
      Around(blocks, q[j]);
      assert q[j] != q[k];
    }
  }

  /** Rewriting the tag word of b leaves every node alone. */
  lemma TagWriteKeepsNodes(m: Mem, blocks: Blocks, q: seq<int>, i: int, b: int, w: nat)
    requires Shaped(blocks) && Listed(blocks, q, i) && b in blocks
    ensures SameNodes(m, m[b := w], q)
  {
    forall k | 0 <= k < |q|
      ensures Word(m[b := w], q[k] + 32) == Word(m, q[k] + 32)
      ensures Word(m[b := w], q[k] + 40) == Word(m, q[k] + 40)
    {
      assert InBin(blocks, q[k], i);
      Around(blocks, q[k]);
    }
  }

  lemma InsertKeepsBin(m: Mem, heads: seq<nat>, chains: seq<seq<int>>, blocks: Blocks, b: int, w: nat, j: int)
    requires BinsOK(m, heads, chains, blocks) && Shaped(blocks) && Positive(blocks)
    requires b in blocks && !blocks[b].free && 0 <= j < BIN_COUNT
    ensures var i := BinIndex(blocks[b].size);
            BinOK(LinkFront(m, b, heads[i])[b := w],
                  if j == i then b + 32 else heads[j],
                  if j == i then [b] + chains[j] else chains[j],
                  SetFree(blocks, b, true), j)
  {
    var i := BinIndex(blocks[b].size);
    var q, p := chains[j], chains[i];
    var m1 := LinkFront(m, b, heads[i]);
    assert BinOK(m, heads[j], q, blocks, j) && BinOK(m, heads[i], p, blocks, i);
    forall k | 0 <= k < |q|
      ensures q[k] != b && q[k] > 0
    {
      assert InBin(blocks, q[k], j);
    }
    ListedSpaced(blocks, q, j, b);
    InsertKeepsListed(blocks, q, j, b);
    if j == i {
      ListedSelfSpaced(blocks, q, j);
      LinkFrontChain(m, b, heads[i], q);
      assert Listed(SetFree(blocks, b, true), [b] + q, j);
      GeometryKeepsShape(blocks, SetFree(blocks, b, true));
      TagWriteKeepsNodes(m1, SetFree(blocks, b, true), [b] + q, j, b, w);
      ChainFrame(m1, m1[b := w], b + 32, [b] + q);
    } else {
      if p != [] { OtherBinSpaced(blocks, q, j, p, i); }
      LinkFrontOthers(m, b, heads[i], q);
      ChainFrame(m, m1, heads[j], q);
      TagWriteKeepsNodes(m1, blocks, q, j, b, w);
      ChainFrame(m1, m1[b := w], heads[j], q);
    }
  }

  lemma InsertKeepsListed(blocks: Blocks, q: seq<int>, j: int, b: int)
    requires Listed(blocks, q, j) && b in blocks && !blocks[b].free
    ensures Listed(SetFree(blocks, b, true), q, j)
  {
    forall k | 0 <= k < |q|
      ensures InBin(SetFree(blocks, b, true), q[k], j)
    {
      assert InBin(blocks, q[k], j);
    }
  }

  /** The first block of one bin lies apart from the blocks of another. */
  lemma OtherBinSpaced(blocks: Blocks, q: seq<int>, j: int, p: seq<int>, i: int)
    requires Shaped(blocks) && Listed(blocks, q, j) && Listed(blocks, p, i) && i != j && p != []
    ensures Spaced(p[0], q)
  {
    assert InBin(blocks, p[0], i);
    forall k | 0 <= k < |q|
      ensures q[k] != p[0]
    {
      assert InBin(blocks, q[k], j);
    }
    ListedSpaced(blocks, q, j, p[0]);
  }

  /** insertFree: linking b and setting its flag keeps bins and tags in agreement. */
  lemma InsertKeepsBins(m: Mem, heads: seq<nat>, chains: seq<seq<int>>, blocks: Blocks, b: int, w: nat)
    requires BinsOK(m, heads, chains, blocks) && Shaped(blocks) && Positive(blocks)
    requires b in blocks && !blocks[b].free
    ensures var i := BinIndex(blocks[b].size);
            BinsOK(LinkFront(m, b, heads[i])[b := w], heads[i := b + 32],
                   chains[i := [b] + chains[i]], SetFree(blocks, b, true))
  {
    var i := BinIndex(blocks[b].size);
    var m', heads', chains', blocks' :=
      LinkFront(m, b, heads[i])[b := w], heads[i := b + 32], chains[i := [b] + chains[i]], SetFree(blocks, b, true);
    forall j | 0 <= j < BIN_COUNT
      ensures BinOK(m', heads'[j], chains'[j], blocks', j)
    {
      InsertKeepsBin(m, heads, chains, blocks, b, w, j);
    }
    forall c | c in blocks' && blocks'[c].free
      ensures c in chains'[BinIndex(blocks'[c].size)]
    {
      if c == b { assert chains'[i][0] == b; } else { assert c in chains[BinIndex(blocks[c].size)]; }
    }
  }

  // --------------------------------------------------------------------- removal

  /** The words after unlinking the node of b. */
  function Unlink(m: Mem, b: int): Mem {
    var prev, next := Word(m, b + 32), Word(m, b + 40);
    var m1 := if prev != 0 then m[prev + 8 := next] else m;
    if next != 0 then m1[next := prev] else m1
  }

  function Without(q: seq<int>, k: int): seq<int>
    requires 0 <= k < |q|
  {
    q[..k] + q[k + 1..]
  }

  /** The block has been taken out of chain i, and nothing else has changed. */
  ghost predicate TakenOut(chains: seq<seq<int>>, chains': seq<seq<int>>, i: nat, b: int)
    requires i < |chains|
  {
    exists k :: 0 <= k < |chains[i]| && chains[i][k] == b && chains' == chains[i := Without(chains[i], k)]
  }

  lemma UnlinkChain(m: Mem, head: nat, q: seq<int>, k: int)
    requires ChainOK(m, head, q) && SelfSpaced(q) && 0 <= k < |q|
    requires forall j :: 0 <= j < |q| ==> q[j] > 0
    ensures ChainOK(Unlink(m, q[k]), if k == 0 then Word(m, q[k] + 40) else head, Without(q, k))
    ensures k == 0 <==> Word(m, q[k] + 32) == 0
  {
    var m', q' := Unlink(m, q[k]), Without(q, k);
    assert LinkOK(m, q, k);
    forall j | 0 <= j < |q'|
      ensures LinkOK(m', q', j)
    {
      UnlinkLink(m, head, q, k, j);
    }
  }

  lemma UnlinkLink(m: Mem, head: nat, q: seq<int>, k: int, j: int)
    requires ChainOK(m, head, q) && SelfSpaced(q) && 0 <= k < |q| && 0 <= j < |q| - 1
    requires forall j :: 0 <= j < |q| ==> q[j] > 0
    ensures LinkOK(Unlink(m, q[k]), Without(q, k), j)
  {
    assert LinkOK(m, q, k);
    if j < k { assert LinkOK(m, q, j); } else { assert LinkOK(m, q, j + 1); }
  }

  lemma UnlinkOthers(m: Mem, head: nat, p: seq<int>, k: int, q: seq<int>)
    requires ChainOK(m, head, p) && 0 <= k < |p|
    requires forall j :: 0 <= j < |p| ==> Spaced(p[j], q)
    ensures SameNodes(m, Unlink(m, p[k]), q)
  {
    assert LinkOK(m, p, k);
    if k > 0 { assert Spaced(p[k - 1], q); }
    if k + 1 < |p| { assert Spaced(p[k + 1], q); }
  }

  lemma RemoveKeepsListed(blocks: Blocks, q: seq<int>, j: int, b: int)
    requires Listed(blocks, q, j) && b in blocks && b !in q
    ensures Listed(SetFree(blocks, b, false), q, j)
  {
    forall k | 0 <= k < |q|
      ensures InBin(SetFree(blocks, b, false), q[k], j)
    {
      assert InBin(blocks, q[k], j);
    }
  }

  lemma RemoveKeepsBin(m: Mem, heads: seq<nat>, chains: seq<seq<int>>, blocks: Blocks, b: int, w: nat, k: int, j: int)
    requires BinsOK(m, heads, chains, blocks) && Shaped(blocks) && Positive(blocks)
    requires b in blocks && blocks[b].free && 0 <= j < BIN_COUNT
    requires var p := chains[BinIndex(blocks[b].size)]; 0 <= k < |p| && p[k] == b
    ensures var i := BinIndex(blocks[b].size);
            BinOK(Unlink(m, b)[b := w],
                  if j == i && k == 0 then Word(m, b + 40) else heads[j],
                  if j == i then Without(chains[j], k) else chains[j],
                  SetFree(blocks, b, false), j)
  {
    var i := BinIndex(blocks[b].size);
    var q, p := chains[j], chains[i];
    var m1 := Unlink(m, b);
    assert BinOK(m, heads[j], q, blocks, j) && BinOK(m, heads[i], p, blocks, i);
    if j == i {
      RemoveKeepsOwnBin(m, heads[i], p, blocks, b, w, k);
    } else {
      forall x | 0 <= x < |p|
        ensures Spaced(p[x], q)
      {
        OtherBinSpaced(blocks, q, j, p[x..], i);
      }
      forall x | 0 <= x < |q|
        ensures q[x] != b
      {
        assert InBin(blocks, q[x], j);
      }
      UnlinkOthers(m, heads[i], p, k, q);
      ChainFrame(m, m1, heads[j], q);
      TagWriteKeepsNodes(m1, blocks, q, j, b, w);
      ChainFrame(m1, m1[b := w], heads[j], q);
      RemoveKeepsListed(blocks, q, j, b);
    }
  }

  lemma RemoveKeepsOwnBin(m: Mem, head: nat, p: seq<int>, blocks: Blocks, b: int, w: nat, k: int)
    requires Shaped(blocks) && Positive(blocks) && b in blocks && blocks[b].free
    requires BinOK(m, head, p, blocks, BinIndex(blocks[b].size)) && 0 <= k < |p| && p[k] == b
    ensures BinOK(Unlink(m, b)[b := w], if k == 0 then Word(m, b + 40) else head, Without(p, k),
                  SetFree(blocks, b, false), BinIndex(blocks[b].size))
  {
    var i, q, m1 := BinIndex(blocks[b].size), Without(p, k), Unlink(m, b);
    ListedSelfSpaced(blocks, p, i);
    forall x | 0 <= x < |p|
      ensures p[x] > 0
    {
      assert InBin(blocks, p[x], i);
    }
    UnlinkChain(m, head, p, k);
    WithoutListed(blocks, p, i, k);
    TagWriteKeepsNodes(m1, blocks, q, i, b, w);
    ChainFrame(m1, m1[b := w], if k == 0 then Word(m, b + 40) else head, q);
    RemoveKeepsListed(blocks, q, i, b);
  }

  lemma WithoutListed(blocks: Blocks, p: seq<int>, i: int, k: int)
    requires Listed(blocks, p, i) && NoDup(p) && 0 <= k < |p|
    ensures Listed(blocks, Without(p, k), i) && NoDup(Without(p, k)) && p[k] !in Without(p, k)
    ensures forall c :: c in p && c != p[k] ==> c in Without(p, k)
  {
    var q := Without(p, k);
    forall x | 0 <= x < |q|
      ensures InBin(blocks, q[x], i)
    {
      assert InBin(blocks, p[if x < k then x else x + 1], i);
    }
    forall c | c in p && c != p[k]
      ensures c in q
    {
      var x :| 0 <= x < |p| && p[x] == c;
      assert q[if x < k then x else x - 1] == c;
    }
  }

  /** removeFree: unlinking b and clearing its flag keeps bins and tags in agreement. */
  lemma RemoveKeepsBins(m: Mem, heads: seq<nat>, chains: seq<seq<int>>, blocks: Blocks, b: int, w: nat, k: int)
    requires BinsOK(m, heads, chains, blocks) && Shaped(blocks) && Positive(blocks)
    requires b in blocks && blocks[b].free
    requires var p := chains[BinIndex(blocks[b].size)]; 0 <= k < |p| && p[k] == b
    ensures var i := BinIndex(blocks[b].size);
            BinsOK(Unlink(m, b)[b := w],
                   if Word(m, b + 32) == 0 then heads[i := Word(m, b + 40)] else heads,
                   chains[i := Without(chains[i], k)], SetFree(blocks, b, false))
  {
    var i := BinIndex(blocks[b].size);
    var p := chains[i];
    assert BinOK(m, heads[i], p, blocks, i);
    assert LinkOK(m, p, k);
    if k > 0 { assert InBin(blocks, p[k - 1], i); }
    var m', chains', blocks' := Unlink(m, b)[b := w], chains[i := Without(p, k)], SetFree(blocks, b, false);
    var heads' := if Word(m, b + 32) == 0 then heads[i := Word(m, b + 40)] else heads;
    forall j | 0 <= j < BIN_COUNT
      ensures BinOK(m', heads'[j], chains'[j], blocks', j)
    {
      RemoveKeepsBin(m, heads, chains, blocks, b, w, k, j);
    }
    WithoutListed(blocks, p, i, k);
    forall c | c in blocks' && blocks'[c].free
      ensures c in chains'[BinIndex(blocks'[c].size)]
    {
      assert c in chains[BinIndex(blocks[c].size)];
    }
  }

  // ----------------------------------------------- what linking and unlinking write

  lemma InsertTouches(m: Mem, head: nat, q: seq<int>, b: int, w: nat, nodes: set<int>)
    requires ChainOK(m, head, q) && b > 0 && b in nodes && (q != [] ==> q[0] in nodes)
    requires forall k :: 0 <= k < |q| ==> q[k] > 0
    ensures OnlyMeta(m, LinkFront(m, b, head)[b := w], {b}, nodes)
  {
    var m' := LinkFront(m, b, head)[b := w];
    forall a | Word(m', a) != Word(m, a)
      ensures Meta({b}, nodes, a)
    {
      assert a == b || a == b + 32 || a == b + 40 || (q != [] && a == q[0] + 32);
    }
  }

  lemma RemoveTouches(m: Mem, head: nat, q: seq<int>, k: int, w: nat, nodes: set<int>)
    requires ChainOK(m, head, q) && 0 <= k < |q|
    requires forall j :: 0 <= j < |q| ==> q[j] > 0 && q[j] in nodes
    ensures OnlyMeta(m, Unlink(m, q[k])[q[k] := w], {q[k]}, nodes)
  {
    var m' := Unlink(m, q[k])[q[k] := w];
    assert LinkOK(m, q, k);
    forall a | Word(m', a) != Word(m, a)
      ensures Meta({q[k]}, nodes, a)
    {
      assert a == q[k] || (k > 0 && a == q[k - 1] + 40) || (k + 1 < |q| && a == q[k + 1] + 32);
    }
  }

  /** Writing the tag of b and some nodes keeps the tags of all other blocks. */
  lemma TagsAfter(m: Mem, m': Mem, blocks: Blocks, blocks': Blocks, b: int, nodes: set<int>)
    requires Shaped(blocks) && TagsOK(m, blocks) && b in blocks
    requires OnlyMeta(m, m', {b}, nodes) && nodes <= blocks.Keys
    requires forall c :: c in blocks' && c != b ==> c in blocks && blocks[c] == blocks'[c]
    requires b in blocks' ==> TagOK(m', b, blocks'[b])
    ensures TagsOK(m', blocks')
  {
    forall c | c in blocks'
      ensures TagOK(m', c, blocks'[c])
    {
      if c != b {
        assert TagOK(m, c, blocks[c]);
        TagApart(blocks, b, nodes, c);
      }
    }
  }

  lemma TagApart(blocks: Blocks, b: int, nodes: set<int>, c: int)
    requires Shaped(blocks) && b in blocks && c in blocks && c != b && nodes <= blocks.Keys
    ensures !Meta({b}, nodes, c) && !Meta({b}, nodes, c + 8)
  {
    Around(blocks, b);
    Around(blocks, c);
    assert c - 24 !in blocks && c - 32 !in blocks && c - 40 !in blocks;
  }

  ghost predicate SameFree(blocks: Blocks, blocks': Blocks) {
    && (forall c :: c in blocks && blocks[c].free ==>
          c in blocks' && blocks'[c].free && blocks'[c].size == blocks[c].size)
    && (forall c :: c in blocks' && blocks'[c].free ==> c in blocks && blocks[c].free)
  }

  /** Writing tags leaves the bins alone. */
  lemma BinsFrame(m: Mem, m': Mem, heads: seq<nat>, chains: seq<seq<int>>, blocks: Blocks, blocks': Blocks, tags: set<int>)
    requires BinsOK(m, heads, chains, blocks) && Shaped(blocks') && SameFree(blocks, blocks')
    requires OnlyMeta(m, m', tags, {}) && tags <= blocks'.Keys
    ensures BinsOK(m', heads, chains, blocks')
  {
    forall i | 0 <= i < BIN_COUNT
      ensures BinOK(m', heads[i], chains[i], blocks', i)
    {
      var q := chains[i];
      assert BinOK(m, heads[i], q, blocks, i);
      forall k | 0 <= k < |q|
        ensures InBin(blocks', q[k], i)
        ensures Word(m', q[k] + 32) == Word(m, q[k] + 32) && Word(m', q[k] + 40) == Word(m, q[k] + 40)
      {
        assert InBin(blocks, q[k], i);
        NodeApart(blocks', tags, q[k]);
      }
      ChainFrame(m, m', heads[i], q);
    }
  }

  lemma NodeApart(blocks: Blocks, tags: set<int>, c: int)
    requires Shaped(blocks) && c in blocks && tags <= blocks.Keys
    ensures !Meta(tags, {}, c + 32) && !Meta(tags, {}, c + 40)
  {
    Around(blocks, c);
    assert c + 24 !in blocks && c + 32 !in blocks && c + 40 !in blocks;
  }

  // ------------------------------------------------------------------- agreement

  /** Tags, bins and blocks describe the same heap. */
  ghost predicate Agree(m: Mem, heads: seq<nat>, chains: seq<seq<int>>, blocks: Blocks) {
    Shaped(blocks) && Positive(blocks) && TagsOK(m, blocks) && BinsOK(m, heads, chains, blocks)
  }

  function TagWord(b: int, k: Blk): nat {
    Pack(k.size, k.free, First(b, k), Last(b, k))
  }

  lemma BinMembers(blocks: Blocks, q: seq<int>, i: int)
    requires Positive(blocks) && Listed(blocks, q, i)
    ensures forall k :: 0 <= k < |q| ==> q[k] > 0 && q[k] in FreeKeys(blocks)
  {
    forall k | 0 <= k < |q|
      ensures q[k] > 0 && q[k] in FreeKeys(blocks)
    {
      assert InBin(blocks, q[k], i);
    }
  }

  /** The first block of a bin is at least 48 bytes from a block that is not free. */
  lemma HeadBeside(blocks: Blocks, q: seq<int>, i: int, b: int)
    requires Shaped(blocks) && Listed(blocks, q, i) && b in blocks && !blocks[b].free
    ensures q != [] ==> b + 48 <= q[0] || q[0] + 48 <= b
  {
    Around(blocks, b);
    if q != [] { assert InBin(blocks, q[0], i); }
  }

  /** insertFree as a whole. */
  lemma InsertAgrees(m: Mem, heads: seq<nat>, chains: seq<seq<int>>, blocks: Blocks, b: int)
    requires Agree(m, heads, chains, blocks) && b in blocks && !blocks[b].free
    ensures var i := BinIndex(blocks[b].size);
            var k' := blocks[b].(free := true);
            var m' := LinkFront(m, b, heads[i])[b := TagWord(b, k')];
            && Agree(m', heads[i := b + 32], chains[i := [b] + chains[i]], SetFree(blocks, b, true))
            && OnlyMeta(m, m', {b}, FreeKeys(blocks) + {b})
  {
    var i, blocks' := BinIndex(blocks[b].size), SetFree(blocks, b, true);
    var w := TagWord(b, blocks'[b]);
    var m' := LinkFront(m, b, heads[i])[b := w];
    assert BinOK(m, heads[i], chains[i], blocks, i);
    BinMembers(blocks, chains[i], i);
    InsertKeepsBins(m, heads, chains, blocks, b, w);
    InsertTouches(m, heads[i], chains[i], b, w, FreeKeys(blocks) + {b});
    HeadBeside(blocks, chains[i], i, b);
    PrevKept(m, m', blocks, b);
    TagsAfter(m, m', blocks, blocks', b, FreeKeys(blocks) + {b});
    GeometryKeepsShape(blocks, blocks');
  }

  /** A tag whose free flag was flipped and whose left size was kept. */
  lemma PrevKept(m: Mem, m': Mem, blocks: Blocks, b: int)
    requires TagsOK(m, blocks) && b in blocks
    requires Word(m', b) == TagWord(b, blocks[b].(free := !blocks[b].free))
    requires Word(m', b + 8) == Word(m, b + 8)
    ensures TagOK(m', b, blocks[b].(free := !blocks[b].free))
  {
    assert TagOK(m, b, blocks[b]);
  }

  /** removeFree as a whole; the bin recomputed from the size is the bin that lists
      the block, because the size has not changed since it was inserted. */
  lemma RemoveAgrees(m: Mem, heads: seq<nat>, chains: seq<seq<int>>, blocks: Blocks, b: int, k: int)
    requires Agree(m, heads, chains, blocks) && b in blocks && blocks[b].free
    requires var p := chains[BinIndex(blocks[b].size)]; 0 <= k < |p| && p[k] == b
    ensures var i := BinIndex(blocks[b].size);
            var m' := Unlink(m, b)[b := TagWord(b, blocks[b].(free := false))];
            var heads' := if Word(m, b + 32) == 0 then heads[i := Word(m, b + 40)] else heads;
            && Agree(m', heads', chains[i := Without(chains[i], k)], SetFree(blocks, b, false))
            && OnlyMeta(m, m', {b}, FreeKeys(blocks))
  {
    var i, blocks' := BinIndex(blocks[b].size), SetFree(blocks, b, false);
    var w := TagWord(b, blocks'[b]);
    var m' := Unlink(m, b)[b := w];
    assert BinOK(m, heads[i], chains[i], blocks, i);
    BinMembers(blocks, chains[i], i);
    RemoveKeepsBins(m, heads, chains, blocks, b, w, k);
    RemoveTouches(m, heads[i], chains[i], k, w, FreeKeys(blocks));
    UnlinkKeepsPrev(m, heads[i], chains[i], blocks, i, k);
    PrevKept(m, m', blocks, b);
    TagsAfter(m, m', blocks, blocks', b, FreeKeys(blocks));
    GeometryKeepsShape(blocks, blocks');
  }

  lemma UnlinkKeepsPrev(m: Mem, head: nat, q: seq<int>, blocks: Blocks, i: int, k: int)
    requires ChainOK(m, head, q) && Shaped(blocks) && Listed(blocks, q, i) && 0 <= k < |q|
    ensures Word(Unlink(m, q[k]), q[k] + 8) == Word(m, q[k] + 8)
  {
    Around(blocks, q[k]);
    assert LinkOK(m, q, k) && InBin(blocks, q[k], i);
    if k > 0 { assert InBin(blocks, q[k - 1], i); }
    if k + 1 < |q| { assert InBin(blocks, q[k + 1], i); }
  }

  /** Rewriting the tags of some blocks while the free blocks stay as they are. */
  lemma RetagAgrees(m: Mem, m': Mem, heads: seq<nat>, chains: seq<seq<int>>,
                    blocks: Blocks, blocks': Blocks, tags: set<int>)
    requires Agree(m, heads, chains, blocks)
    requires Shaped(blocks') && Positive(blocks') && SameFree(blocks, blocks')
    requires OnlyMeta(m, m', tags, {}) && tags <= blocks'.Keys
    requires forall c :: c in tags ==> TagOK(m', c, blocks'[c])
    requires forall c :: c in blocks' && c !in tags ==> c in blocks && blocks[c] == blocks'[c]
    ensures Agree(m', heads, chains, blocks')
  {
    BinsFrame(m, m', heads, chains, blocks, blocks', tags);
    forall c | c in blocks'
      ensures TagOK(m', c, blocks'[c])
    {
      if c !in tags {
        assert TagOK(m, c, blocks[c]);
        OtherTagApart(blocks', tags, c);
      }
    }
  }

  lemma OtherTagApart(blocks: Blocks, tags: set<int>, c: int)
    requires Shaped(blocks) && c in blocks && c !in tags && tags <= blocks.Keys
    ensures !Meta(tags, {}, c) && !Meta(tags, {}, c + 8)
  {
    Around(blocks, c);
    assert c - 8 !in blocks && c + 8 !in blocks;
  }

  /** A word of a live payload is none of the heap's own: writing it keeps the agreement. */
  lemma PayloadWriteAgrees(m: Mem, heads: seq<nat>, chains: seq<seq<int>>, blocks: Blocks, b: int, a: int, w: nat)
    requires Agree(m, heads, chains, blocks) && b in blocks && !blocks[b].free
    requires b + 16 <= a && a + 8 <= b + blocks[b].size
    ensures Agree(m[a := w], heads, chains, blocks)
  {
    var m' := m[a := w];
    forall c | c in blocks
      ensures TagOK(m', c, blocks[c])
    {
      assert TagOK(m, c, blocks[c]);
      Around(blocks, c);
    }
    forall i | 0 <= i < BIN_COUNT
      ensures BinOK(m', heads[i], chains[i], blocks, i)
    {
      assert BinOK(m, heads[i], chains[i], blocks, i);
      PayloadWriteKeepsNodes(m, blocks, chains[i], i, b, a, w);
      ChainFrame(m, m', heads[i], chains[i]);
    }
  }

  lemma PayloadWriteKeepsNodes(m: Mem, blocks: Blocks, q: seq<int>, i: int, b: int, a: int, w: nat)
    requires Shaped(blocks) && Listed(blocks, q, i) && b in blocks && !blocks[b].free
    requires b + 16 <= a && a + 8 <= b + blocks[b].size
    ensures SameNodes(m, m[a := w], q)
  {
    forall k | 0 <= k < |q|
      ensures Word(m[a := w], q[k] + 32) == Word(m, q[k] + 32) && Word(m[a := w], q[k] + 40) == Word(m, q[k] + 40)
    {
      assert InBin(blocks, q[k], i);
      Around(blocks, q[k]);
    }
  }
}
