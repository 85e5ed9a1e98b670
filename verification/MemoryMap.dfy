/** The boot memory map and the compact numbering of its usable frames. */
module MemoryMap {
  import opened Base

  datatype RegionKind = Usable | Reserved

  /** One entry of the boot memory map; both bounds are 64-bit addresses. */
  datatype Region = Region(start: nat, end: nat, kind: RegionKind)

  /** A half-open range of page-aligned addresses. */
  datatype Extent = Extent(start: nat, end: nat)

  /** Rounds up by masking, with the saturating addition the source uses. */
  function AlignUp(value: nat): nat {
    Min(value + (0x1000 - 1), U64_END - 1) / 0x1000 * 0x1000
  }

  function UsableBounds(region: Region): (r: Option<Extent>)
    ensures r.Some? ==>
              && region.kind.Usable?
              && r.value.start < r.value.end
              && r.value.start % 0x1000 == 0 && r.value.end % 0x1000 == 0
              && 0x1000 <= r.value.start
              && r.value.end <= region.end
  {
    if !region.kind.Usable? then None else
      var start := AlignUp(Max(region.start, 0x1000));
      var end := region.end / 0x1000 * 0x1000;
      if start < end then Some(Extent(start, end)) else None
  }

  /**
   The bounds are exactly the whole frames of a usable region, the null frame
   excepted.
   */
  lemma UsableBoundsExact(region: Region, frame: nat)
    requires region.start < U64_END && region.end < U64_END
    requires frame % 0x1000 == 0
    ensures (UsableBounds(region).Some? && Covers(UsableBounds(region).value, frame))
            <==> region.kind.Usable? && frame != 0
                 && region.start <= frame && frame + 0x1000 <= region.end
  {
    var k := frame / 0x1000;
    assert frame == k * 0x1000;
    var low := Max(region.start, 0x1000);
    assert frame < region.end / 0x1000 * 0x1000 <==> frame + 0x1000 <= region.end;
    if frame + 0x1000 <= region.end && region.kind.Usable? {
      // low saturates only when no whole frame is left above it
      assert low <= frame <==> AlignUp(low) <= frame;
    }
  }

  predicate Covers(e: Extent, address: nat) {
    e.start <= address < e.end && address % 0x1000 == 0
  }

  function FramesIn(e: Extent): nat
    requires e.start <= e.end
  {
    (e.end - e.start) / 0x1000
  }

  /** The usable extents of the map, in order. */
  function Extents(regions: seq<Region>): (r: seq<Extent>)
    ensures WellFormed(r)
  {
    if regions == [] then []
    else (match UsableBounds(regions[0]) case Some(e) => [e] case None => []) + Extents(regions[1..])
  }

  ghost predicate WellFormed(es: seq<Extent>) {
    forall k | 0 <= k < |es| ::
      es[k].start < es[k].end && es[k].start % 0x1000 == 0 && es[k].end % 0x1000 == 0
  }

  /** No address lies in two extents of the map. */
  ghost predicate Disjoint(es: seq<Extent>) {
    forall i, j | 0 <= i < j < |es| :: es[i].end <= es[j].start || es[j].end <= es[i].start
  }

  function Total(es: seq<Extent>): nat
    requires WellFormed(es)
  {
    if es == [] then 0 else FramesIn(es[0]) + Total(es[1..])
  }

  /** Ordinal of an address among all usable frames. */
  function IndexOf(es: seq<Extent>, address: nat): (r: Option<nat>)
    requires WellFormed(es)
    ensures r.Some? ==> r.value < Total(es)
  {
    if es == [] then None
    else if Covers(es[0], address) then Some((address - es[0].start) / 0x1000)
    else Shift(FramesIn(es[0]), IndexOf(es[1..], address))
  }

  function Shift(base: nat, index: Option<nat>): Option<nat> {
    match index
    case Some(k) => Some(base + k)
    case None => None
  }

  /** Address of the frame with a given ordinal. */
  function FrameAt(es: seq<Extent>, index: nat): Option<nat>
    requires WellFormed(es)
  {
    if es == [] then None
    else if index < FramesIn(es[0]) then Some(es[0].start + index * 0x1000)
    else FrameAt(es[1..], index - FramesIn(es[0]))
  }

  lemma CoversByOrdinal(e: Extent, k: nat)
    requires e.start < e.end && e.start % 0x1000 == 0 && e.end % 0x1000 == 0
    ensures k < FramesIn(e) <==> Covers(e, e.start + k * 0x1000)
    ensures (e.start + k * 0x1000 - e.start) / 0x1000 == k
  {
    var a, b := e.start / 0x1000, e.end / 0x1000;
    assert e.start == a * 0x1000 && e.end == b * 0x1000;
    assert FramesIn(e) == b - a;
  }

  /** Every ordinal below the total names a frame, and that frame is covered. */
  lemma {:induction false} FrameAtCovered(es: seq<Extent>, index: nat)
    requires WellFormed(es)
    ensures index < Total(es) <==> FrameAt(es, index).Some?
    ensures FrameAt(es, index).Some? ==> exists e | e in es :: Covers(e, FrameAt(es, index).value)
  {
    if es != [] {
      if index < FramesIn(es[0]) {
        CoversByOrdinal(es[0], index);
        assert es[0] in es;
      } else {
        FrameAtCovered(es[1..], index - FramesIn(es[0]));
        assert forall e | e in es[1..] :: e in es;
      }
    }
  }

  /** Address to ordinal to address: always the identity. */
  lemma {:induction false} AddressRoundTrip(es: seq<Extent>, address: nat)
    requires WellFormed(es)
    ensures IndexOf(es, address).Some? ==> FrameAt(es, IndexOf(es, address).value) == Some(address)
    ensures IndexOf(es, address).Some? <==> exists e | e in es :: Covers(e, address)
  {
    if es != [] {
      if Covers(es[0], address) {
        assert es[0] in es;
        CoversByOrdinal(es[0], (address - es[0].start) / 0x1000);
      } else {
        AddressRoundTrip(es[1..], address);
        assert forall e | e in es :: e == es[0] || e in es[1..];
      }
    }
  }

  lemma TailNotInHead(es: seq<Extent>, index: nat)
    requires WellFormed(es) && Disjoint(es) && es != [] && FramesIn(es[0]) <= index < Total(es)
    ensures FrameAt(es, index).Some? && !Covers(es[0], FrameAt(es, index).value)
  {
    FrameAtCovered(es[1..], index - FramesIn(es[0]));
    var e :| e in es[1..] && Covers(e, FrameAt(es, index).value);
    var j :| 0 <= j < |es[1..]| && es[1..][j] == e;
    assert es[j + 1] == e;
  }

  /** Ordinal to address to ordinal, on a disjoint map. */
  lemma {:induction false} OrdinalRoundTrip(es: seq<Extent>, index: nat)
    requires WellFormed(es) && Disjoint(es) && index < Total(es)
    ensures FrameAt(es, index).Some? && IndexOf(es, FrameAt(es, index).value) == Some(index)
  {
    FrameAtCovered(es, index);
    if index < FramesIn(es[0]) {
      CoversByOrdinal(es[0], index);
    } else {
      var address := FrameAt(es, index).value;
      TailNotInHead(es, index);
      OrdinalRoundTrip(es[1..], index - FramesIn(es[0]));
      assert IndexOf(es, address) == Shift(FramesIn(es[0]), IndexOf(es[1..], address));
    }
  }

  /** Numbering a frame of a later extent skips the extents before it. */
  lemma {:induction false} OrdinalInExtent(es: seq<Extent>, j: nat, k: nat) returns (index: nat)
    requires WellFormed(es) && j < |es| && k < FramesIn(es[j])
    ensures index < Total(es) && FrameAt(es, index) == Some(es[j].start + k * 0x1000)
    ensures 0 < j ==> FramesIn(es[0]) <= index
    ensures j == 0 ==> index < FramesIn(es[0])
  {
    if j == 0 {
      index := k;
      FrameAtCovered(es, index);
    } else {
      var rest := OrdinalInExtent(es[1..], j - 1, k);
      index := FramesIn(es[0]) + rest;
    }
  }

  /**
   The numbering is a bijection exactly when no two usable extents overlap.
   */
  lemma NumberingBijectiveIffDisjoint(es: seq<Extent>)
    requires WellFormed(es)
    ensures Disjoint(es) <==>
            forall index: nat | index < Total(es) ::
              FrameAt(es, index).Some? && IndexOf(es, FrameAt(es, index).value) == Some(index)
  {
    if Disjoint(es) {
      forall index: nat | index < Total(es)
        ensures FrameAt(es, index).Some? && IndexOf(es, FrameAt(es, index).value) == Some(index)
      {
        OrdinalRoundTrip(es, index);
      }
    } else {
      OverlapCollides(es);
    }
  }

  lemma {:induction false} OverlapCollides(es: seq<Extent>)
    requires WellFormed(es) && !Disjoint(es)
    ensures exists index: nat | index < Total(es) ::
              FrameAt(es, index).Some? && IndexOf(es, FrameAt(es, index).value) != Some(index)
  {
    var i, j :| 0 <= i < j < |es| && !(es[i].end <= es[j].start || es[j].end <= es[i].start);
    if i == 0 {
      HeadOverlapCollides(es, j);
    } else {
      var rest := es[1..];
      assert rest[i - 1] == es[i] && rest[j - 1] == es[j];
      OverlapCollides(rest);
      var index: nat :| index < Total(rest) && FrameAt(rest, index).Some?
        && IndexOf(rest, FrameAt(rest, index).value) != Some(index);
      CollisionLifts(es, index);
    }
  }

  /** A frame of extent j that extent 0 already claims gets extent 0's number. */
  lemma HeadOverlapCollides(es: seq<Extent>, j: nat)
    requires WellFormed(es) && 0 < j < |es|
    requires es[j].start < es[0].end && es[0].start < es[j].end
    ensures exists index: nat | index < Total(es) ::
              FrameAt(es, index).Some? && IndexOf(es, FrameAt(es, index).value) != Some(index)
  {
    hide Covers, FramesIn, IndexOf, FrameAt;
    var shared := SharedFrame(es[0], es[j]);
    var k := OffsetOf(es[j], shared);
    var index := OrdinalInExtent(es, j, k);
    CoveredHead(es, shared);
    assert IndexOf(es, FrameAt(es, index).value) != Some(index);
  }

  lemma SharedFrame(a: Extent, b: Extent) returns (frame: nat)
    requires a.start % 0x1000 == 0 && b.start % 0x1000 == 0 && a.start < a.end && b.start < b.end
    requires b.start < a.end && a.start < b.end
    ensures Covers(a, frame) && Covers(b, frame)
  {
    frame := if a.start < b.start then b.start else a.start;
  }

  lemma OffsetOf(e: Extent, address: nat) returns (k: nat)
    requires e.start < e.end && e.start % 0x1000 == 0 && e.end % 0x1000 == 0 && Covers(e, address)
    ensures k < FramesIn(e) && address == e.start + k * 0x1000
  {
    AlignedDifference(e.start, address);
    k := (address - e.start) / 0x1000;
    CoversByOrdinal(e, k);
  }

  lemma CoveredHead(es: seq<Extent>, address: nat)
    requires WellFormed(es) && es != [] && Covers(es[0], address)
    ensures IndexOf(es, address).Some? && IndexOf(es, address).value < FramesIn(es[0])
  {
    AlignedDifference(es[0].start, address);
    CoversByOrdinal(es[0], (address - es[0].start) / 0x1000);
  }

  lemma CollisionLifts(es: seq<Extent>, index: nat)
    requires WellFormed(es) && es != []
    requires index < Total(es[1..]) && FrameAt(es[1..], index).Some?
    requires IndexOf(es[1..], FrameAt(es[1..], index).value) != Some(index)
    ensures exists whole: nat | whole < Total(es) ::
              FrameAt(es, whole).Some? && IndexOf(es, FrameAt(es, whole).value) != Some(whole)
  {
    hide Covers, FramesIn, IndexOf, FrameAt;
    var whole := FramesIn(es[0]) + index;
    var address := FrameAt(es[1..], index).value;
    TailFrame(es, index);
    if Covers(es[0], address) {
      CoveredHead(es, address);
    } else {
      TailIndex(es, address);
    }
    assert IndexOf(es, address) != Some(whole);
  }

  lemma TailFrame(es: seq<Extent>, index: nat)
    requires WellFormed(es) && es != []
    ensures FrameAt(es, FramesIn(es[0]) + index) == FrameAt(es[1..], index)
  {
    hide FramesIn;
    assert FramesIn(es[0]) + index - FramesIn(es[0]) == index;
  }

  lemma TailIndex(es: seq<Extent>, address: nat)
    requires WellFormed(es) && es != [] && !Covers(es[0], address)
    ensures IndexOf(es, address) == Shift(FramesIn(es[0]), IndexOf(es[1..], address))
  {
    hide Covers, FramesIn;
  }

  lemma AlignedDifference(a: nat, b: nat)
    requires a <= b && a % 0x1000 == 0 && b % 0x1000 == 0
    ensures b == a + (b - a) / 0x1000 * 0x1000
  {
    assert a == a / 0x1000 * 0x1000 && b == b / 0x1000 * 0x1000;
  }

  /** One step of a scan over the regions. */
  lemma ScanStep(regions: seq<Region>, k: nat)
    requires k < |regions|
    ensures UsableBounds(regions[k]).None? ==> Extents(regions[k..]) == Extents(regions[k + 1..])
    ensures UsableBounds(regions[k]).Some? ==>
              && Extents(regions[k..]) != []
              && Extents(regions[k..])[0] == UsableBounds(regions[k]).value
              && Extents(regions[k..])[1..] == Extents(regions[k + 1..])
  {
    assert regions[k..][1..] == regions[k + 1..];
  }

  lemma IndexScanStep(regions: seq<Region>, k: nat, address: nat)
    requires k < |regions|
    ensures IndexOf(Extents(regions[k..]), address) ==
            var rest := IndexOf(Extents(regions[k + 1..]), address);
            match UsableBounds(regions[k])
            case None => rest
            case Some(e) =>
              if Covers(e, address) then Some((address - e.start) / 0x1000) else Shift(FramesIn(e), rest)
  {
    ScanStep(regions, k);
  }

  lemma IndexScanEnd(regions: seq<Region>, address: nat)
    ensures IndexOf(Extents(regions[|regions|..]), address) == None
  {
  }

  lemma FrameScanStep(regions: seq<Region>, k: nat, index: nat)
    requires k < |regions|
    ensures FrameAt(Extents(regions[k..]), index) ==
            match UsableBounds(regions[k])
            case None => FrameAt(Extents(regions[k + 1..]), index)
            case Some(e) =>
              if index < FramesIn(e) then Some(e.start + index * 0x1000)
              else FrameAt(Extents(regions[k + 1..]), index - FramesIn(e))
  {
    ScanStep(regions, k);
  }

  /** The scan over regions with a running base computes the ordinal. */
  method CompactFrameIndex(regions: seq<Region>, address: nat) returns (r: Option<nat>)
    ensures r == IndexOf(Extents(regions), address)
  {
    hide UsableBounds, Extents, IndexOf;
    var base: nat := 0;
    var k := 0;
    assert regions[0..] == regions;
    IndexScanEnd(regions, address);
    while k < |regions|
      invariant 0 <= k <= |regions|
      invariant IndexOf(Extents(regions), address) == Shift(base, IndexOf(Extents(regions[k..]), address))
    {
      IndexScanStep(regions, k, address);
      match UsableBounds(regions[k]) {
        case None =>
        case Some(e) =>
          if Covers(e, address) {
            return Some(base + (address - e.start) / 0x1000);
          }
          base := base + FramesIn(e);
      }
      k := k + 1;
    }
    return None;
  }

  /** The scan that consumes the index region by region inverts the numbering. */
  method CompactIndexFrame(regions: seq<Region>, ordinal: nat) returns (r: Option<nat>)
    ensures r == FrameAt(Extents(regions), ordinal)
  {
    var index: nat := ordinal;
    var k := 0;
    assert regions[0..] == regions;
    while k < |regions|
      invariant 0 <= k <= |regions|
      invariant FrameAt(Extents(regions), ordinal) == FrameAt(Extents(regions[k..]), index)
    {
      FrameScanStep(regions, k, index);
      match UsableBounds(regions[k]) {
        case None =>
        case Some(e) =>
          var count := FramesIn(e);
          if index < count {
            return Some(e.start + index * 0x1000);
          }
          index := index - count;
      }
      k := k + 1;
    }
    return None;
  }

  /** Where a run of pages goes: the start of the first extent that has room for it. */
  function MetadataStart(es: seq<Extent>, pages: nat): Option<nat> {
    if es == [] then None
    else if pages * 0x1000 <= es[0].end - es[0].start then Some(es[0].start)
    else MetadataStart(es[1..], pages)
  }

  /** That extent, or that there is none. */
  lemma {:induction false} FirstFit(es: seq<Extent>, pages: nat) returns (k: nat)
    ensures k <= |es| && (forall j | 0 <= j < k :: es[j].end - es[j].start < pages * 0x1000)
    ensures MetadataStart(es, pages) == if k < |es| then Some(es[k].start) else None
    ensures k < |es| ==> pages * 0x1000 <= es[k].end - es[k].start
  {
    if es == [] || pages * 0x1000 <= es[0].end - es[0].start {
      return 0;
    }
    k := FirstFit(es[1..], pages);
    k := k + 1;
  }

  lemma MetadataScanStep(regions: seq<Region>, k: nat, pages: nat)
    requires k < |regions|
    ensures MetadataStart(Extents(regions[k..]), pages) ==
            var rest := MetadataStart(Extents(regions[k + 1..]), pages);
            match UsableBounds(regions[k])
            case None => rest
            case Some(e) => if pages * 0x1000 <= e.end - e.start then Some(e.start) else rest
  {
    hide UsableBounds;
    ScanStep(regions, k);
  }

  lemma MetadataScanEnd(regions: seq<Region>, pages: nat)
    ensures MetadataStart(Extents(regions[|regions|..]), pages) == None
  {
  }

  /** The scan for the allocator's own metadata. */
  method FindMetadataExtent(regions: seq<Region>, pages: nat) returns (r: Option<nat>)
    ensures r == MetadataStart(Extents(regions), pages)
  {
    hide UsableBounds, Extents, MetadataStart;
    var k := 0;
    assert regions[0..] == regions;
    MetadataScanEnd(regions, pages);
    while k < |regions|
      invariant 0 <= k <= |regions|
      invariant MetadataStart(Extents(regions), pages) == MetadataStart(Extents(regions[k..]), pages)
    {
      MetadataScanStep(regions, k, pages);
      match UsableBounds(regions[k]) {
        case None =>
        case Some(e) =>
          if pages * 0x1000 <= e.end - e.start {
            return Some(e.start);
          }
      }
      k := k + 1;
    }
    return None;
  }
}
