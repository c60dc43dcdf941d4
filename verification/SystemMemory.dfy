/** The operating system as a source of fresh, page-aligned regions that may fail. */
module SystemMemory {
  import Words

  /** User addresses end here, so an address plus any request the allocator makes
      of a word stays a word. */
  const ADDRESS_LIMIT: nat := 0x8000_0000_0000_0000

  /** The sizes the system may have; both 64 KiB runs and 4 MiB segments are whole
      numbers of pages. */
  ghost predicate PageSize(page: nat) {
    page > 0 && page % 16 == 0 && 0x1_0000 % page == 0 && 0x40_0000 % page == 0
  }

  predicate Disjoint(a: int, m: nat, b: int, n: nat) {
    a + m <= b || b + n <= a
  }

  /** The ranges from a up to b and from c up to d have an address in common. */
  predicate Overlap(a: int, b: int, c: int, d: int) {
    a < d && c < b
  }

  predicate Fresh(mapped: map<int, nat>, base: int, size: nat) {
    && 0 < base && base + size <= ADDRESS_LIMIT
    && forall b :: b in mapped ==> Disjoint(base, size, b, mapped[b])
  }

  /** Mappings are aligned, inside the address space, and away from each other. */
  ghost predicate MappedOK(mapped: map<int, nat>) {
    && (forall b :: b in mapped ==>
          0 < b && b % 16 == 0 && 0 < mapped[b] && b + mapped[b] <= ADDRESS_LIMIT)
    && (forall b, c {:trigger Disjoint(b, mapped[b], c, mapped[c])} ::
          b in mapped && c in mapped && b != c ==> Disjoint(b, mapped[b], c, mapped[c]))
  }

  class Os {
    const page: nat
    /** Every mapped region: its base and its size. */
    var mapped: map<int, nat>
    /** How often a mapping request has been refused. */
    var refusals: nat

    ghost predicate Valid()
      reads this
    {
      PageSize(page) && MappedOK(mapped)
    }

    constructor (page: nat)
      requires PageSize(page)
      ensures Valid() && mapped == map[] && this.page == page && refusals == 0
    {
      this.page := page;
      mapped := map[];
      refusals := 0;
    }

    /** roundToPages */
    function Rounded(size: nat): nat
      requires page > 0
    {
      (size + page - 1) / page * page
    }

    /** map: no region for size zero; otherwise either no region, or a region of whole
        pages away from every other one, wherever the system chooses. */
    method Map(size: nat) returns (base: int)
      requires Valid()
      modifies this
      ensures Valid()
      ensures size == 0 ==> base == 0
      ensures base == 0 ==> mapped == old(mapped) && refusals == old(refusals) + 1
      ensures base != 0 ==>
                && Fresh(old(mapped), base, Rounded(size)) && base % page == 0 && base % 16 == 0
                && size <= Rounded(size) < size + page && Rounded(size) > 0 && mapped == old(mapped)[base := Rounded(size)]
                && refusals == old(refusals)
    {
      base := *;
      var n := Rounded(size);
      if size == 0 || n == 0 || base % page != 0 || !Fresh(mapped, base, n) {
        base := 0;
        refusals := refusals + 1;
        return;
      }
      PageAligned(base, page);
      RoundedUp(size, page);
      mapped := mapped[base := n];
    }

    /** unmap */
    method Unmap(base: int)
      requires Valid() && base in mapped
      modifies this
      ensures Valid() && mapped == old(mapped) - {base} && refusals == old(refusals)
    {
      mapped := mapped - {base};
    }
  }

  lemma PageAligned(x: int, page: nat)
    requires page > 0 && page % 16 == 0 && x % page == 0
    ensures x % 16 == 0
  {
    var q, p := x / page, page / 16;
    assert x == q * page && page == p * 16;
    assert x == (q * p) * 16 by {
      assert q * (p * 16) == (q * p) * 16;
    }
  }

  lemma RoundedUp(size: nat, page: nat)
    requires page > 0
    ensures size <= (size + page - 1) / page * page < size + page
  {
    var s := size + page - 1;
    assert s == s / page * page + s % page;
  }

  /** A whole number of pages is not rounded. */
  lemma RoundedWhole(size: nat, page: nat)
    requires page > 0 && size % page == 0
    ensures (size + page - 1) / page * page == size
  {
    var q := size / page;
    assert size == q * page;
    var s := size + page - 1;
    assert s / page == q by {
      Words.RemainderUnique(s, q, page, page - 1);
    }
  }
}
