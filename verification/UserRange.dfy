/** User virtual addresses: range validation and the split into table indices. */
module UserRange {
  import opened Base
  import opened PageTables

  const USER_VA_RANGE_START: nat := 0x40_0000
  const USER_VA_RANGE_END: nat := 0x8000_0000_0000

  /** Bits 47..12 of an address, nine at a time. */
  function PageIndices(addr: nat): (pg: Page)
    ensures |pg| == 4 && forall d | 0 <= d < 4 :: pg[d] < 512
  {
    [addr / 0x80_0000_0000 % 512, addr / 0x4000_0000 % 512, addr / 0x20_0000 % 512, addr / 0x1000 % 512]
  }

  function PageAddress(start: nat, k: nat): nat {
    start + k * 0x1000
  }

  /** The address that four table indices stand for. */
  function AddressOf(pg: Page): nat
    requires |pg| == 4
  {
    ((pg[0] * 512 + pg[1]) * 512 + pg[2]) * 512 * 0x1000 + pg[3] * 0x1000
  }

  /** The indices of a page-aligned 47-bit address determine it. */
  lemma IndicesInverse(addr: nat)
    requires addr < USER_VA_RANGE_END && addr % 0x1000 == 0
    ensures AddressOf(PageIndices(addr)) == addr
  {
    var n := addr / 0x1000;
    assert addr / 0x20_0000 == n / 512;
    assert addr / 0x4000_0000 == n / 512 / 512;
    assert addr / 0x80_0000_0000 == n / 512 / 512 / 512;
  }

  /** Whether every slot in `first..=last` is free for user mappings. */
  method NoReservedSlot(first: nat, last: nat) returns (ok: bool)
    ensures ok <==> forall i | first <= i <= last :: !IsKernelReservedSlot(i)
  {
    var i := first;
    while i <= last
      invariant first <= i
      invariant forall j | first <= j < i && j <= last :: !IsKernelReservedSlot(j)
    {
      if IsKernelReservedSlot(i) {
        return false;
      }
      i := i + 1;
    }
    return true;
  }

  /** What a range must satisfy, stated page by page. */
  ghost predicate UserRangeOk(start: nat, pages: nat) {
    && 0 < pages && start % 0x1000 == 0
    && USER_VA_RANGE_START <= start && PageAddress(start, pages) <= USER_VA_RANGE_END
    && forall k | 0 <= k < pages :: UserPage(PageIndices(PageAddress(start, k)))
  }

  /** The user pages by address: the lower half of the 48-bit space but for the kernel's three root slots. */
  lemma UserAddresses(addr: nat)
    requires addr < 0x1_0000_0000_0000
    ensures UserPage(PageIndices(addr)) <==>
              && addr < 0x8000_0000_0000
              && addr / 0x80_0000_0000 != 136 && addr / 0x80_0000_0000 != 170 && addr / 0x80_0000_0000 != 171
  {
  }

  /** Accepts exactly the nonempty, aligned ranges in bounds whose every page is a user page. */
  method ValidateUserRange(start: nat, pages: nat) returns (ok: bool)
    requires start < U64_END && pages < U64_END
    ensures ok <==> UserRangeOk(start, pages)
    ensures ok <==>
              && 0 < pages && start % 0x1000 == 0 && 0x40_0000 <= start && start + pages * 0x1000 <= 0x8000_0000_0000
              && forall k | 0 <= k < pages :: !IsKernelReservedSlot(PageAddress(start, k) / 0x80_0000_0000)
  {
    RangeByAddress(start, pages);
    if pages == 0 || start % 0x1000 != 0 {
      return false;
    }
    if U64_END <= pages * 0x1000 || U64_END <= start + pages * 0x1000 {
      assert USER_VA_RANGE_END < PageAddress(start, pages);
      return false;
    }
    var end := start + pages * 0x1000;
    if start < USER_VA_RANGE_START || USER_VA_RANGE_END < end {
      return false;
    }
    var first, last := start / 0x80_0000_0000, (end - 1) / 0x80_0000_0000;
    ok := NoReservedSlot(first, last);
    if ok {
      forall k | 0 <= k < pages
        ensures UserPage(PageIndices(PageAddress(start, k)))
      {
        PageInSlots(start, pages, k);
      }
    } else {
      var i :| first <= i <= last && IsKernelReservedSlot(i);
      SlotHasPage(start, pages, i);
    }
  }

  lemma RangeByAddress(start: nat, pages: nat)
    ensures UserRangeOk(start, pages) <==>
              && 0 < pages && start % 0x1000 == 0 && 0x40_0000 <= start && start + pages * 0x1000 <= 0x8000_0000_0000
              && forall k | 0 <= k < pages :: !IsKernelReservedSlot(PageAddress(start, k) / 0x80_0000_0000)
  {
    if start + pages * 0x1000 <= 0x8000_0000_0000 {
      forall k | 0 <= k < pages
        ensures UserPage(PageIndices(PageAddress(start, k))) <==>
                  !IsKernelReservedSlot(PageAddress(start, k) / 0x80_0000_0000)
      {
        UserAddresses(PageAddress(start, k));
      }
    }
  }

  /** A page of the range lies between its first and last root slot. */
  lemma PageInSlots(start: nat, pages: nat, k: nat)
    requires k < pages && start % 0x1000 == 0 && PageAddress(start, pages) <= USER_VA_RANGE_END
    ensures var slot := PageIndices(PageAddress(start, k))[0];
            && start / 0x80_0000_0000 <= slot <= (PageAddress(start, pages) - 1) / 0x80_0000_0000 && slot < 256
  {
    var a := PageAddress(start, k);
    assert start <= a <= PageAddress(start, pages) - 1;
    SlotMonotone(start, a);
    SlotMonotone(a, PageAddress(start, pages) - 1);
  }

  lemma SlotMonotone(a: nat, b: nat)
    requires a <= b < USER_VA_RANGE_END
    ensures a / 0x80_0000_0000 <= b / 0x80_0000_0000 < 256
    ensures PageIndices(a)[0] == a / 0x80_0000_0000
  {
  }

  /** Every root slot between the first and the last holds a page of the range. */
  lemma SlotHasPage(start: nat, pages: nat, i: nat)
    requires 0 < pages && start % 0x1000 == 0 && PageAddress(start, pages) <= USER_VA_RANGE_END
    requires start / 0x80_0000_0000 <= i <= (PageAddress(start, pages) - 1) / 0x80_0000_0000
    ensures exists k | 0 <= k < pages :: PageIndices(PageAddress(start, k))[0] == i
  {
    var base := i * 0x80_0000_0000;
    var k := if base <= start then 0 else (base - start) / 0x1000;
    assert 0 <= k < pages;
    assert PageAddress(start, k) / 0x80_0000_0000 == i;
    assert PageIndices(PageAddress(start, k))[0] == i;
  }

  /** Distinct pages of a range have distinct indices. */
  lemma PagesDistinct(start: nat, j: nat, k: nat)
    requires start % 0x1000 == 0 && PageAddress(start, j) < USER_VA_RANGE_END
            && PageAddress(start, k) < USER_VA_RANGE_END
    requires PageIndices(PageAddress(start, j)) == PageIndices(PageAddress(start, k))
    ensures j == k
  {
    hide AddressOf, PageIndices;
    IndicesInverse(PageAddress(start, j));
    IndicesInverse(PageAddress(start, k));
  }
}
