/** The tiers share one system: which of them owns which mapping, and why what the system
    newly maps for one of them is away from all that the others hold. */
module Mappings {
  import opened SystemMemory
  import opened Shards
  import opened PoolSystem
  import opened Pools
  import opened SegmentLayout
  import opened Tags
  import opened Tiers

  /** Every region of the tiers is a mapping of the system, and none has two owners. */
  ghost predicate Owned(t: State, mapped: map<int, nat>) {
    && (forall g :: IsRegion(t, g) ==> g.base in mapped && mapped[g.base] == g.size)
    && (forall g, h {:trigger Clash(t, g, h)} :: !Clash(t, g, h))
  }

  ghost predicate Clash(t: State, g: Region, h: Region) {
    IsRegion(t, g) && IsRegion(t, h) && g.base == h.base && g != h
  }

  /** The tiers have gone from t to t', and whatever they gained was not mapped before. */
  ghost predicate Gains(t: State, t': State, mapped: map<int, nat>, mapped': map<int, nat>) {
    && (forall b :: b in mapped ==> b in mapped' && mapped'[b] == mapped[b])
    && (forall g :: IsRegion(t', g) && !IsRegion(t, g) ==>
          g.base !in mapped && g.base in mapped' && mapped'[g.base] == g.size)
    && (forall g, h {:trigger Clash(t', g, h)} :: Clash(t', g, h) ==> IsRegion(t, g) || IsRegion(t, h))
  }

  lemma NoNewClash(t: State, t': State, mapped: map<int, nat>, mapped': map<int, nat>, g: Region, h: Region)
    requires Owned(t, mapped) && Gains(t, t', mapped, mapped')
    ensures !Clash(t', g, h)
  {
    assert !Clash(t, g, h);
  }

  /** Ownership is kept, and the new mappings are what the tiers ask of the system. */
  lemma OwnedGrows(t: State, t': State, mapped: map<int, nat>, mapped': map<int, nat>)
    requires Owned(t, mapped) && Gains(t, t', mapped, mapped') && MappedOK(mapped')
    ensures Owned(t', mapped') && FreshMappings(t, t')
  {
    forall g, h
      ensures !Clash(t', g, h)
    {
      NoNewClash(t, t', mapped, mapped', g, h);
    }
    forall g | IsRegion(t', g)
      ensures g.base in mapped' && mapped'[g.base] == g.size
    {}
    forall g | IsRegion(t', g) && !IsRegion(t, g)
      ensures 0 < g.base && g.base % 16 == 0 && g.base + g.size <= ADDRESS_LIMIT
      ensures forall h :: IsRegion(t', h) && h != g ==> !Overlap(g.base, g.base + g.size, h.base, h.base + h.size)
    {
      forall h | IsRegion(t', h) && h != g
        ensures !Overlap(g.base, g.base + g.size, h.base, h.base + h.size)
      {
        assert !Clash(t', g, h);
        assert Disjoint(g.base, mapped'[g.base], h.base, mapped'[h.base]);
      }
    }
  }

  /** Giving up one mapping leaves the rest owned as before. */
  lemma OwnedShrinks(t: State, t': State, mapped: map<int, nat>, mapped': map<int, nat>, gone: set<int>)
    requires Owned(t, mapped) && mapped' == mapped - gone
    requires forall g :: IsRegion(t', g) ==> IsRegion(t, g) && g.base !in gone
    ensures Owned(t', mapped')
  {
    forall g, h
      ensures !Clash(t', g, h)
    {
      assert !Clash(t, g, h);
    }
  }

  // ------------------------------------------------------------------- tier by tier

  /** New runs of one class. */
  lemma RunsGain(t: State, c: nat, s': System, mapped: map<int, nat>, mapped': map<int, nat>)
    requires c < |t.small| && RunsGrown(mapped, mapped', t.small[c].shard.runs, s'.shard.runs) && Owned(t, mapped)
    requires forall b :: b in s'.shard.runs ==> b in mapped' && mapped'[b] == RUN_SIZE
    requires MappedOK(mapped)
    ensures Gains(t, t.(small := t.small[c := s']), mapped, mapped')
  {
    var t' := t.(small := t.small[c := s']);
    forall g | IsRegion(t', g) && !IsRegion(t, g)
      ensures g.owner == Small(c) && g.base !in mapped && g.base in mapped' && mapped'[g.base] == g.size
    {
      assert Fresh(mapped, g.base, RUN_SIZE);
      FreshNotMapped(mapped, g.base, RUN_SIZE);
    }
    forall g, h | Clash(t', g, h)
      ensures IsRegion(t, g) || IsRegion(t, h)
    {}
  }

  lemma FreshNotMapped(mapped: map<int, nat>, base: int, size: nat)
    requires MappedOK(mapped) && Fresh(mapped, base, size) && size > 0
    ensures base !in mapped
  {
    assert base in mapped ==> Disjoint(base, size, base, mapped[base]);
  }

  /** A new segment. */
  lemma SegmentGains(t: State, l': Layout, base: int, mapped: map<int, nat>)
    requires MappedOK(mapped) && Fresh(mapped, base, SEGMENT_SIZE) && Owned(t, mapped)
    requires forall s :: s in l'.segs ==> s in t.heap.segs || s == base
    ensures Gains(t, t.(heap := l'), mapped, mapped[base := SEGMENT_SIZE])
  {
    FreshNotMapped(mapped, base, SEGMENT_SIZE);
  }

  /** No new segment. */
  lemma NoSegmentGains(t: State, l': Layout, mapped: map<int, nat>)
    requires Owned(t, mapped) && forall s :: s in l'.segs ==> s in t.heap.segs
    ensures Gains(t, t.(heap := l'), mapped, mapped)
  {}

  /** A new large mapping. */
  lemma LargeGains(t: State, base: int, size: nat, mapped: map<int, nat>)
    requires MappedOK(mapped) && Fresh(mapped, base, size) && size > 0 && Owned(t, mapped)
    requires base + LARGE_OFFSET !in t.large
    ensures Gains(t, t.(large := t.large[base + LARGE_OFFSET := size]), mapped, mapped[base := size])
  {
    FreshNotMapped(mapped, base, size);
  }

  lemma NewPayload(t: State, base: int, size: nat, mapped: map<int, nat>)
    requires MappedOK(mapped) && Fresh(mapped, base, size) && size > 0 && Owned(t, mapped)
    ensures base + LARGE_OFFSET !in t.large
  {
    FreshNotMapped(mapped, base, size);
    assert base + LARGE_OFFSET in t.large ==> IsRegion(t, Region(Large, base, t.large[base + LARGE_OFFSET]));
  }
}
