/** The debug layer: the registry of tracked pointers, and the check of the guards. */
module DebugLayers {
  import opened SizeClasses
  import opened RawMemory
  import opened FacadeState

  class DebugLayer {
    var live: map<int, nat>
    var freed: set<int>

    constructor ()
      ensures live == map[] && freed == {}
    {
      live, freed := map[], {};
    }

    /** A pointer issued again is no longer among the freed ones. */
    method Track(user: int, size: nat)
      modifies this
      ensures live == old(live)[user := size] && freed == old(freed) - {user}
    {
      live := live[user := size];
      freed := freed - {user};
    }

    method Untrack(user: int) returns (was: bool)
      modifies this
      ensures was == (user in old(live)) && live == old(live) - {user}
      ensures freed == if was then old(freed) + {user} else old(freed)
    {
      if user !in live {
        assert live - {user} == live;
        return false;
      }
      live := live - {user};
      freed := freed + {user};
      return true;
    }
  }

  /** verifyGuards accepts exactly when every byte of both guards has the pattern. */
  method VerifyGuards(m: Memory, user: int, size: nat) returns (ok: bool)
    ensures ok <==> GuardsIntact(m, user, size)
    ensures ok <==> forall x :: user - 32 <= x < user - 16 || user + size <= x < user + size + 32 ==> m.bytes(x) == 0xFB
  {
    var front := user - FRONT_GUARD;
    var i := 0;
    while i < FRONT_GUARD - HEADER_SIZE
      invariant 0 <= i <= FRONT_GUARD - HEADER_SIZE
      invariant forall x :: front <= x < front + i ==> m.bytes(x) == GUARD_BYTE
    {
      if m.bytes(front + i) != GUARD_BYTE {
        return false;
      }
      i := i + 1;
    }
    var rear := user + size;
    i := 0;
    while i < REAR_GUARD
      invariant 0 <= i <= REAR_GUARD
      invariant forall x :: rear <= x < rear + i ==> m.bytes(x) == GUARD_BYTE
    {
      if m.bytes(rear + i) != GUARD_BYTE {
        return false;
      }
      i := i + 1;
    }
    return true;
  }

  /** What the registry should hold: the issued blocks with their sizes, and every
      pointer that was issued and is so no longer. */
  ghost predicate RegistryOK(tracked: map<int, nat>, tombs: set<int>, live: Blocks, issued: set<int>) {
    tracked == Sizes(live) && tombs == issued - live.Keys
  }

  function Sizes(live: Blocks): map<int, nat> {
    map p | p in live :: live[p].size
  }

  lemma SizesCount(live: Blocks)
    ensures |Sizes(live)| == |live|
  {
    assert Sizes(live).Keys == live.Keys;
  }

  lemma RegistryAdd(tracked: map<int, nat>, tombs: set<int>, live: Blocks, issued: set<int>, p: int, k: Block)
    requires RegistryOK(tracked, tombs, live, issued) && p !in live
    ensures RegistryOK(tracked[p := k.size], tombs - {p}, live[p := k], issued + {p})
  {}

  lemma RegistryRemove(tracked: map<int, nat>, tombs: set<int>, live: Blocks, issued: set<int>, p: int)
    requires RegistryOK(tracked, tombs, live, issued) && p in live && p in issued
    ensures RegistryOK(tracked - {p}, tombs + {p}, live - {p}, issued)
  {
    assert p in tracked;
  }
}
