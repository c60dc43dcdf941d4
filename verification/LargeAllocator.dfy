/** The large tier: one mapping for each allocation. */
module LargeAllocators {
  import opened SystemMemory
  import opened Tiers

  class LargeAllocator {
    /** The size of the mapping behind each payload. */
    var regions: map<int, nat>

    constructor ()
      ensures regions == map[]
    {
      regions := map[];
    }

    method Allocate(bytes: nat, os: Os) returns (payload: int)
      requires os.Valid()
      modifies this, os
      ensures os.Valid()
      ensures payload == 0 ==> regions == old(regions) && os.mapped == old(os.mapped) && os.refusals > old(os.refusals)
      ensures payload != 0 ==>
                var base := payload - LARGE_OFFSET;
                && payload in regions && Fresh(old(os.mapped), base, regions[payload])
                && bytes + LARGE_OFFSET <= regions[payload] && os.mapped == old(os.mapped)[base := regions[payload]]
                && regions == old(regions)[payload := regions[payload]]
    {
      var base := os.Map(bytes + LARGE_OFFSET);
      if base == 0 {
        return 0;
      }
      payload := base + LARGE_OFFSET;
      regions := regions[payload := os.Rounded(bytes + LARGE_OFFSET)];
    }

    method Deallocate(payload: int, os: Os) returns (was: bool)
      requires os.Valid() && (payload in regions ==> payload - LARGE_OFFSET in os.mapped)
      modifies this, os
      ensures os.Valid() && was == (payload in old(regions)) && regions == old(regions) - {payload}
      ensures os.mapped == if was then old(os.mapped) - {payload - LARGE_OFFSET} else old(os.mapped)
    {
      if payload !in regions {
        assert regions - {payload} == regions;
        return false;
      }
      regions := regions - {payload};
      os.Unmap(payload - LARGE_OFFSET);
      return true;
    }

    method PayloadCapacity(payload: int) returns (capacity: int)
      ensures capacity == if payload in regions then regions[payload] - LARGE_OFFSET else 0
    {
      return if payload in regions then regions[payload] - LARGE_OFFSET else 0;
    }
  }
}
