/**
 The reference-counted physical-frame allocator. The bitmap, the refcounts and
 the counters are kept in step by allocate, retain, release and pin.
 */
module FrameLedger {
  import opened Base
  import opened MemoryMap

  /** Refcount value that marks a permanently reserved frame (32-bit maximum). */
  const PINNED: Count := 0xFFFF_FFFF

  /** A 32-bit refcount. */
  type Count = count: nat | count <= 0xFFFF_FFFF

  datatype Use = Free | Exclusive | Shared | Pinned

  function UseOf(count: Count): Use {
    if count == 0 then Free else if count == PINNED then Pinned else if count == 1 then Exclusive else Shared
  }

  /** Number of frames in a given use. */
  function Tally(counts: seq<Count>, use: Use): nat {
    if counts == [] then 0 else One(UseOf(counts[0]) == use) + Tally(counts[1..], use)
  }

  lemma {:induction false} TallyUpdate(counts: seq<Count>, i: nat, count: Count, use: Use)
    requires i < |counts|
    ensures Tally(counts[i := count], use) + One(UseOf(counts[i]) == use)
            == Tally(counts, use) + One(UseOf(count) == use)
  {
    if i == 0 {
      assert counts[i := count][1..] == counts[1..];
    } else {
      assert counts[i := count][1..] == counts[1..][i - 1 := count];
      TallyUpdate(counts[1..], i - 1, count, use);
    }
  }

  lemma {:induction false} TallyZero(counts: seq<Count>, use: Use)
    ensures Tally(counts, use) == 0 <==> forall i | 0 <= i < |counts| :: UseOf(counts[i]) != use
  {
    if counts != [] {
      TallyZero(counts[1..], use);
      assert forall i | 0 < i < |counts| :: counts[i] == counts[1..][i - 1];
      assert forall i | 0 <= i < |counts[1..]| :: counts[1..][i] == counts[i + 1];
    }
  }

  datatype Stats = Stats(totalUsable: nat, pinned: nat, issued: nat, shared: nat, free: nat)

  ghost predicate CountersAgree(stats: Stats, counts: seq<Count>) {
    && stats.totalUsable == |counts|
    && stats.pinned == Tally(counts, Pinned)
    && stats.issued == Tally(counts, Exclusive) + Tally(counts, Shared)
    && stats.shared == Tally(counts, Shared)
    && stats.free == Tally(counts, Free)
  }

  /** Every usable frame is pinned, allocated or free, and no frame twice. */
  lemma {:induction false} CountersConserve(stats: Stats, counts: seq<Count>)
    requires CountersAgree(stats, counts)
    ensures stats.totalUsable == stats.pinned + stats.issued + stats.free
    ensures stats.shared <= stats.issued
  {
    TallyPartition(counts);
  }

  lemma {:induction false} TallyPartition(counts: seq<Count>)
    ensures Tally(counts, Free) + Tally(counts, Exclusive) + Tally(counts, Shared) + Tally(counts, Pinned)
            == |counts|
  {
    if counts != [] {
      TallyPartition(counts[1..]);
    }
  }

  /** Number of refcounts with a property. */
  function Matching(counts: seq<Count>, p: Count -> bool): nat {
    if counts == [] then 0 else One(p(counts[0])) + Matching(counts[1..], p)
  }

  lemma {:induction false} TallyMatches(counts: seq<Count>, use: Use, p: Count -> bool)
    requires forall c: Count :: p(c) <==> UseOf(c) == use
    ensures Tally(counts, use) == Matching(counts, p)
  {
    if counts != [] {
      TallyMatches(counts[1..], use, p);
    }
  }

  lemma {:induction false} IssuedMatches(counts: seq<Count>, p: Count -> bool)
    requires forall c: Count :: p(c) <==> UseOf(c) == Exclusive || UseOf(c) == Shared
    ensures Tally(counts, Exclusive) + Tally(counts, Shared) == Matching(counts, p)
  {
    if counts != [] {
      IssuedMatches(counts[1..], p);
    }
  }

  /** What the counters say of the refcounts. */
  lemma CountersMean(stats: Stats, counts: seq<Count>)
    requires CountersAgree(stats, counts)
    ensures stats.free == Matching(counts, (c: Count) => c == 0)
    ensures stats.pinned == Matching(counts, (c: Count) => c == 0xffff_ffff)
    ensures stats.issued == Matching(counts, (c: Count) => 0 < c < 0xffff_ffff)
    ensures stats.shared == Matching(counts, (c: Count) => 1 < c < 0xffff_ffff)
  {
    TallyMatches(counts, Free, (c: Count) => c == 0);
    TallyMatches(counts, Pinned, (c: Count) => c == 0xffff_ffff);
    IssuedMatches(counts, (c: Count) => 0 < c < 0xffff_ffff);
    TallyMatches(counts, Shared, (c: Count) => 1 < c < 0xffff_ffff);
  }

  /** What one refcount change does to the four tallies. */
  lemma CountersUpdate(stats: Stats, counts: seq<Count>, i: nat, count: Count, after: Stats)
    requires CountersAgree(stats, counts) && i < |counts|
    requires after.totalUsable == stats.totalUsable
    requires after.pinned == stats.pinned - One(UseOf(counts[i]).Pinned?) + One(UseOf(count).Pinned?)
    requires after.issued == stats.issued
             - One(UseOf(counts[i]).Exclusive? || UseOf(counts[i]).Shared?)
             + One(UseOf(count).Exclusive? || UseOf(count).Shared?)
    requires after.shared == stats.shared - One(UseOf(counts[i]).Shared?) + One(UseOf(count).Shared?)
    requires after.free == stats.free - One(UseOf(counts[i]).Free?) + One(UseOf(count).Free?)
    ensures CountersAgree(after, counts[i := count])
  {
    TallyUpdate(counts, i, count, Free);
    TallyUpdate(counts, i, count, Exclusive);
    TallyUpdate(counts, i, count, Shared);
    TallyUpdate(counts, i, count, Pinned);
  }

  /** A 64-bit bitmap word, as the set of its one bits. */
  type Word = set<nat>

  ghost predicate BitsAgree(bitmap: seq<Word>, counts: seq<Count>) {
    && |bitmap| == (|counts| + 63) / 64
    && (forall i | 0 <= i < |counts| :: i % 64 in bitmap[i / 64] <==> counts[i] != 0)
  }

  function WithBit(word: Word, bit: nat, value: bool): Word {
    if value then word + {bit} else word - {bit}
  }

  lemma BitsUpdate(bitmap: seq<Word>, counts: seq<Count>, i: nat, count: Count)
    requires BitsAgree(bitmap, counts) && i < |counts|
    ensures i / 64 < |bitmap|
    ensures BitsAgree(bitmap[i / 64 := WithBit(bitmap[i / 64], i % 64, count != 0)], counts[i := count])
  {
    var after := bitmap[i / 64 := WithBit(bitmap[i / 64], i % 64, count != 0)];
    forall j | 0 <= j < |counts|
      ensures j % 64 in after[j / 64] <==> counts[i := count][j] != 0
    {
      assert j / 64 == i / 64 && j % 64 == i % 64 ==> j == i;
    }
  }

  /** The refcounts seen by frame address; pinned frames are not offered. */
  ghost predicate RefsAgree(es: seq<Extent>, counts: seq<Count>, refs: map<nat, nat>)
    requires WellFormed(es) && Total(es) == |counts|
  {
    forall f: nat ::
      (f in refs <==> IndexOf(es, f).Some? && counts[IndexOf(es, f).value] != PINNED)
      && (f in refs ==> refs[f] == counts[IndexOf(es, f).value])
  }

  lemma IndexInjective(es: seq<Extent>, f: nat, g: nat)
    requires WellFormed(es) && IndexOf(es, f).Some? && IndexOf(es, f) == IndexOf(es, g)
    ensures f == g
  {
    AddressRoundTrip(es, f);
    AddressRoundTrip(es, g);
  }

  lemma RefsUpdate(es: seq<Extent>, counts: seq<Count>, refs: map<nat, nat>, f: nat, count: Count)
    requires WellFormed(es) && Total(es) == |counts| && RefsAgree(es, counts, refs)
    requires IndexOf(es, f).Some?
    ensures count != PINNED ==> RefsAgree(es, counts[IndexOf(es, f).value := count], refs[f := count])
    ensures count == PINNED ==> RefsAgree(es, counts[IndexOf(es, f).value := count], refs - {f})
  {
    forall g: nat | IndexOf(es, g) == IndexOf(es, f)
      ensures g == f
    {
      IndexInjective(es, f, g);
    }
  }

  /** The bitmap, the counters and the by-address view all follow the refcounts. */
  ghost predicate Agrees(es: seq<Extent>, bitmap: seq<Word>, counts: seq<Count>, stats: Stats, refs: map<nat, nat>)
    requires WellFormed(es)
  {
    && Total(es) == |counts|
    && BitsAgree(bitmap, counts)
    && CountersAgree(stats, counts)
    && RefsAgree(es, counts, refs)
  }

  function SetBit(bitmap: seq<Word>, i: nat, value: bool): seq<Word> {
    if i / 64 < |bitmap| then bitmap[i / 64 := WithBit(bitmap[i / 64], i % 64, value)] else bitmap
  }

  ghost function SetRef(refs: map<nat, nat>, f: nat, count: Count): map<nat, nat> {
    if count == PINNED then refs - {f} else refs[f := count]
  }

  function SetUse(stats: Stats, before: Use, after: Use): Stats
    requires One(before.Pinned?) <= stats.pinned && One(before.Free?) <= stats.free
    requires One(before.Shared?) <= stats.shared && One(before.Exclusive? || before.Shared?) <= stats.issued
  {
    stats.(pinned := stats.pinned - One(before.Pinned?) + One(after.Pinned?),
           issued := stats.issued - One(before.Exclusive? || before.Shared?) + One(after.Exclusive? || after.Shared?),
           shared := stats.shared - One(before.Shared?) + One(after.Shared?),
           free := stats.free - One(before.Free?) + One(after.Free?))
  }

  lemma TallyPositive(counts: seq<Count>, i: nat)
    requires i < |counts|
    ensures 0 < Tally(counts, UseOf(counts[i]))
  {
    TallyZero(counts, UseOf(counts[i]));
  }

  lemma CountersAllowUse(stats: Stats, counts: seq<Count>, i: nat)
    requires CountersAgree(stats, counts) && i < |counts|
    ensures var before := UseOf(counts[i]);
            && One(before.Pinned?) <= stats.pinned && One(before.Free?) <= stats.free
            && One(before.Shared?) <= stats.shared && One(before.Exclusive? || before.Shared?) <= stats.issued
  {
    TallyPositive(counts, i);
  }

  /** Every agreement survives a refcount change carried out in all four places. */
  lemma LedgerUpdate(es: seq<Extent>, bitmap: seq<Word>, counts: seq<Count>, stats: Stats, refs: map<nat, nat>,
                     f: nat, count: Count)
    requires WellFormed(es) && Agrees(es, bitmap, counts, stats, refs) && IndexOf(es, f).Some?
    ensures var i := IndexOf(es, f).value;
            var before := UseOf(counts[i]);
            && One(before.Pinned?) <= stats.pinned && One(before.Free?) <= stats.free
            && One(before.Shared?) <= stats.shared && One(before.Exclusive? || before.Shared?) <= stats.issued
            && i / 64 < |bitmap|
            && Agrees(es, SetBit(bitmap, i, count != 0), counts[i := count],
                      SetUse(stats, before, UseOf(count)), SetRef(refs, f, count))
  {
    var i := IndexOf(es, f).value;
    CountersAllowUse(stats, counts, i);
    CountersUpdate(stats, counts, i, count, SetUse(stats, UseOf(counts[i]), UseOf(count)));
    BitsUpdate(bitmap, counts, i, count);
    RefsUpdate(es, counts, refs, f, count);
  }
}

module FrameAllocation {
  import opened Base
  import opened MemoryMap
  import opened FrameLedger
  import opened FramePool

  datatype FrameError = Unmanaged | AlreadyFree | PinnedFrame | RefcountOverflow

  /** How many words after `next`, cyclically, the scan reaches word `w`. */
  function Distance(w: nat, next: nat, words: nat): int {
    if next <= w then w - next else w + words - next
  }

  class FrameAllocator {
    const regions: seq<Region>
    const bitmap: array<Word>
    const refcounts: array<Count>
    var nextWord: nat
    var stats: Stats
    /** Test hook: -1 is off, 0 fails the next allocation, n > 0 allows n more. */
    var failAfter: int
    /** Refcount of each managed frame that is not pinned, by address. */
    ghost var refs: map<nat, nat>

    ghost predicate Valid()
      reads this, bitmap, refcounts
    {
      var es := Extents(regions);
      && Disjoint(es)
      && 0 < refcounts.Length
      && nextWord < bitmap.Length
      && Agrees(es, bitmap[..], refcounts[..], stats, refs)
    }

    /** All frames start free; the bitmap has one bit for each. */
    constructor (regions: seq<Region>)
      requires Disjoint(Extents(regions)) && 0 < Total(Extents(regions))
      ensures Valid() && this.regions == regions && failAfter == -1
      ensures fresh(bitmap) && fresh(refcounts)
      ensures forall f: nat :: f in refs <==> IndexOf(Extents(regions), f).Some?
      ensures forall f | f in refs :: refs[f] == 0
    {
      var n := Total(Extents(regions));
      this.regions := regions;
      bitmap := new Word[(n + 63) / 64](_ => {});
      refcounts := new Count[n](_ => 0);
      nextWord := 0;
      stats := Stats(n, 0, 0, 0, n);
      failAfter := -1;
      refs := ZeroRefs(Extents(regions));
      new;
      AllFree(refcounts[..]);
      ZeroRefsAgree(Extents(regions), refcounts[..]);
    }

    method FrameIndex(frame: nat) returns (r: Option<nat>)
      ensures r == IndexOf(Extents(regions), frame)
    {
      r := CompactFrameIndex(regions, frame);
    }

    /** Refcount of a frame, or none for an unmanaged or pinned one. */
    method Refcount(frame: nat) returns (r: Option<nat>)
      requires Valid()
      ensures r == if frame in refs then Some(refs[frame]) else None
    {
      var index := FrameIndex(frame);
      if index.None? || refcounts[index.value] == PINNED {
        return None;
      }
      return Some(refcounts[index.value]);
    }

    method RetainFrame(frame: nat) returns (r: Result<nat, FrameError>)
      requires Valid()
      modifies this, refcounts
      ensures Valid() && failAfter == old(failAfter)
      ensures Retained(old(refs), refs, frame, r.Ok?)
      ensures r.Ok? ==> r.value == refs[frame]
      ensures r == Err(Unmanaged) <==> IndexOf(Extents(regions), frame).None?
      ensures r == Err(PinnedFrame) <==> IndexOf(Extents(regions), frame).Some? && frame !in old(refs)
      ensures r == Err(AlreadyFree) <==> frame in old(refs) && old(refs)[frame] == 0
    {
      hide BitsAgree, CountersAgree, RefsAgree, Disjoint, Tally;
      RefOfFrame(Extents(regions), refcounts[..], refs, frame);
      var found := FrameIndex(frame);
      if found.None? {
        return Err(Unmanaged);
      }
      var index := found.value;
      var count := refcounts[index];
      if count == 0 {
        return Err(AlreadyFree);
      }
      if count == PINNED {
        return Err(PinnedFrame);
      }
      if count == PINNED - 1 {
        return Err(RefcountOverflow);
      }
      Recount(frame, index, count + 1,
              if count == 1 then stats.(shared := stats.shared + 1) else stats);
      return Ok(count + 1);
    }

    /** A refcount change that keeps the frame in use. */
    method Recount(frame: nat, index: nat, count: Count, after: Stats)
      requires Valid() && IndexOf(Extents(regions), frame) == Some(index)
      requires 0 < refcounts[index] < PINNED && 0 < count < PINNED
      requires after == stats.(shared := after.shared)
      requires after.shared == stats.shared - One(refcounts[index] != 1) + One(count != 1)
      modifies this`stats, this`refs, refcounts
      ensures Valid() && refs == old(refs)[frame := count]
    {
      hide BitsAgree, CountersAgree, RefsAgree, Disjoint, Tally;
      ghost var was := refcounts[..];
      LedgerUpdate(Extents(regions), bitmap[..], was, stats, refs, frame, count);
      BitAlreadySet(bitmap[..], was, index);
      refcounts[index] := count;
      stats := after;
      refs := refs[frame := count];
      assert refcounts[..] == was[index := count];
    }

    /** The last reference goes: the frame becomes allocatable again. */
    method Free(frame: nat, index: nat)
      requires Valid() && IndexOf(Extents(regions), frame) == Some(index) && refcounts[index] == 1
      modifies this`stats, this`refs, this`nextWord, refcounts, bitmap
      ensures Valid() && refs == old(refs)[frame := 0]
    {
      hide BitsAgree, CountersAgree, RefsAgree, Disjoint, Tally;
      ghost var was := refcounts[..];
      LedgerUpdate(Extents(regions), bitmap[..], was, stats, refs, frame, 0);
      refcounts[index] := 0;
      SetAllocated(index, false);
      stats := stats.(issued := stats.issued - 1, free := stats.free + 1);
      nextWord := Min(nextWord, index / 64);
      refs := refs[frame := 0];
      assert refcounts[..] == was[index := 0];
    }

    method SetAllocated(index: nat, value: bool)
      requires index / 64 < bitmap.Length
      modifies bitmap
      ensures bitmap[..] == SetBit(old(bitmap[..]), index, value)
    {
      var bit := index % 64;
      if value {
        bitmap[index / 64] := bitmap[index / 64] + {bit};
      } else {
        bitmap[index / 64] := bitmap[index / 64] - {bit};
      }
    }

    method ReleaseFrame(frame: nat) returns (r: Result<nat, FrameError>)
      requires Valid()
      modifies this, bitmap, refcounts
      ensures Valid() && failAfter == old(failAfter)
      ensures Released(old(refs), refs, frame, r.Ok?)
      ensures r.Ok? ==> r.value == refs[frame]
      ensures r == Err(Unmanaged) <==> IndexOf(Extents(regions), frame).None?
      ensures r == Err(PinnedFrame) <==> IndexOf(Extents(regions), frame).Some? && frame !in old(refs)
    {
      hide BitsAgree, CountersAgree, RefsAgree, Disjoint, Tally;
      RefOfFrame(Extents(regions), refcounts[..], refs, frame);
      var found := FrameIndex(frame);
      if found.None? {
        return Err(Unmanaged);
      }
      var index := found.value;
      var count := refcounts[index];
      if count == 0 {
        return Err(AlreadyFree);
      }
      if count == PINNED {
        return Err(PinnedFrame);
      }
      if count == 1 {
        Free(frame, index);
      } else {
        SharedPositive(stats, refcounts[..], index);
        Recount(frame, index, count - 1,
                if count == 2 then stats.(shared := stats.shared - 1) else stats);
      }
      return Ok(count - 1);
    }

    /** Reserves a free frame for good: it leaves the managed refcounts. */
    method PinFrame(frame: nat) returns (r: Result<(), FrameError>)
      requires Valid()
      modifies this, bitmap, refcounts
      ensures Valid() && failAfter == old(failAfter)
      ensures r.Ok? ==> IndexOf(Extents(regions), frame).Some? && refs == old(refs) - {frame}
      ensures r.Err? ==> refs == old(refs)
      ensures r.Err? ==> r.error.RefcountOverflow? || r.error.Unmanaged?
      ensures r == Err(RefcountOverflow) <==> frame in old(refs) && old(refs)[frame] != 0
      ensures r == Err(Unmanaged) <==> IndexOf(Extents(regions), frame).None?
    {
      var found := FrameIndex(frame);
      if found.None? {
        return Err(Unmanaged);
      }
      var index := found.value;
      if refcounts[index] == PINNED {
        assert refs == refs - {frame};
        return Ok(());
      }
      if refcounts[index] != 0 {
        return Err(RefcountOverflow);
      }
      PinIndex(frame, index);
      return Ok(());
    }

    method PinIndex(frame: nat, index: nat)
      requires Valid() && IndexOf(Extents(regions), frame) == Some(index) && refcounts[index] == 0
      modifies this`stats, this`refs, refcounts, bitmap
      ensures Valid() && refs == old(refs) - {frame}
    {
      hide BitsAgree, CountersAgree, RefsAgree, Disjoint, Tally;
      ghost var was := refcounts[..];
      LedgerUpdate(Extents(regions), bitmap[..], was, stats, refs, frame, PINNED);
      SetAllocated(index, true);
      refcounts[index] := PINNED;
      stats := stats.(pinned := stats.pinned + 1, free := stats.free - 1);
      refs := refs - {frame};
      assert refcounts[..] == was[index := PINNED];
    }

    method InjectedFailure() returns (fail: bool)
      modifies this`failAfter
      ensures fail <==> old(failAfter) == 0
      ensures failAfter == if old(failAfter) > 0 then old(failAfter) - 1 else old(failAfter)
    {
      if failAfter < 0 {
        return false;
      }
      if failAfter == 0 {
        return true;
      }
      failAfter := failAfter - 1;
      return false;
    }

    /**
     Scans the bitmap from the word hint, wrapping, for a clear bit that names a
     frame. Nothing is found only if every frame is in use.
     */
    method FindFree() returns (r: Option<nat>)
      requires Valid()
      ensures r.Some? ==> r.value < refcounts.Length && refcounts[r.value] == 0
      ensures r.None? ==> forall i | 0 <= i < refcounts.Length :: refcounts[i] != 0
    {
      var words := bitmap.Length;
      var scanned := 0;
      while scanned < words
        invariant 0 <= scanned <= words
        invariant forall i | 0 <= i < refcounts.Length && Distance(i / 64, nextWord, words) < scanned ::
                    refcounts[i] != 0
      {
        var wordIndex := (nextWord + scanned) % words;
        WrapWord(nextWord, scanned, words);
        var bit := LowestClear(bitmap[wordIndex]);
        if bit < 64 {
          var index := wordIndex * 64 + bit;
          assert index / 64 == wordIndex && index % 64 == bit;
          if index < refcounts.Length {
            assert bitmap[..][wordIndex] == bitmap[wordIndex];
            return Some(index);
          }
        }
        WordFull(bitmap[..], refcounts[..], wordIndex, bit);
        scanned := scanned + 1;
      }
      return None;
    }

    method AllocateFrame() returns (r: Option<nat>)
      requires Valid()
      modifies this, bitmap, refcounts
      ensures Valid()
      ensures r.Some? <==> old(failAfter) != 0 && exists f | f in old(refs) :: old(refs)[f] == 0
      ensures Allocated(old(refs), refs, r)
    {
      var fail := InjectedFailure();
      FreeFrames(Extents(regions), refcounts[..], refs);
      if fail || stats.free == 0 {
        return None;
      }
      var found := FindFree();
      assert found.Some? by {
        TallyZero(refcounts[..], FrameLedger.Free);
      }
      r := Claim(found.value);
    }

    method Claim(index: nat) returns (r: Option<nat>)
      requires Valid() && index < refcounts.Length && refcounts[index] == 0
      modifies this, bitmap, refcounts
      ensures Valid() && failAfter == old(failAfter)
      ensures r.Some? && Allocated(old(refs), refs, r)
    {
      hide BitsAgree, CountersAgree, RefsAgree, Disjoint, Tally;
      RefOfIndex(Extents(regions), refcounts[..], refs, index);
      OrdinalRoundTrip(Extents(regions), index);
      r := CompactIndexFrame(regions, index);
      Take(r.value, index);
    }

    /** A free frame gets its first reference. */
    method Take(frame: nat, index: nat)
      requires Valid() && IndexOf(Extents(regions), frame) == Some(index) && refcounts[index] == 0
      modifies this`stats, this`refs, this`nextWord, refcounts, bitmap
      ensures Valid() && refs == old(refs)[frame := 1]
    {
      hide BitsAgree, CountersAgree, RefsAgree, Disjoint, Tally;
      ghost var was := refcounts[..];
      LedgerUpdate(Extents(regions), bitmap[..], was, stats, refs, frame, 1);
      SetAllocated(index, true);
      refcounts[index] := 1;
      stats := stats.(issued := stats.issued + 1, free := stats.free - 1);
      nextWord := index / 64;
      refs := refs[frame := 1];
      assert refcounts[..] == was[index := 1];
    }
  }

  /** Index of the lowest zero bit of a word, 64 if there is none. */
  method LowestClear(word: Word) returns (bit: nat)
    ensures bit <= 64
    ensures bit < 64 ==> bit !in word
    ensures forall b: nat | b < bit :: b in word
  {
    bit := 0;
    while bit < 64 && bit in word
      invariant bit <= 64
      invariant forall b: nat | b < bit :: b in word
    {
      bit := bit + 1;
    }
  }

  lemma WrapWord(next: nat, scanned: nat, words: nat)
    requires next < words && scanned < words
    ensures (next + scanned) % words < words
    ensures forall w: nat | w < words :: Distance(w, next, words) == scanned <==> w == (next + scanned) % words
  {
    assert (next + scanned) % words == if next + scanned < words then next + scanned else next + scanned - words by {
      if words <= next + scanned {
        assert next + scanned == 1 * words + (next + scanned - words);
      }
    }
  }

  lemma BitAlreadySet(bitmap: seq<Word>, counts: seq<Count>, i: nat)
    requires BitsAgree(bitmap, counts) && i < |counts| && counts[i] != 0
    ensures SetBit(bitmap, i, true) == bitmap
  {
    assert bitmap[i / 64] + {i % 64} == bitmap[i / 64];
  }

  lemma WordFull(bitmap: seq<Word>, counts: seq<Count>, w: nat, bit: nat)
    requires BitsAgree(bitmap, counts) && w < |bitmap| && bit <= 64
    requires forall b: nat | b < bit :: b in bitmap[w]
    requires bit == 64 || |counts| <= w * 64 + bit
    ensures forall i | 0 <= i < |counts| && i / 64 == w :: counts[i] != 0
  {
  }

  lemma SharedPositive(stats: Stats, counts: seq<Count>, i: nat)
    requires CountersAgree(stats, counts) && i < |counts| && UseOf(counts[i]).Shared?
    ensures 0 < stats.shared
  {
    TallyPositive(counts, i);
  }

  lemma RefOfFrame(es: seq<Extent>, counts: seq<Count>, refs: map<nat, nat>, f: nat)
    requires WellFormed(es) && Total(es) == |counts| && RefsAgree(es, counts, refs)
    ensures f in refs <==> IndexOf(es, f).Some? && counts[IndexOf(es, f).value] != PINNED
    ensures f in refs ==> refs[f] == counts[IndexOf(es, f).value]
  {
  }

  lemma RefOfIndex(es: seq<Extent>, counts: seq<Count>, refs: map<nat, nat>, i: nat)
    requires WellFormed(es) && Disjoint(es) && Total(es) == |counts| && RefsAgree(es, counts, refs)
    requires i < |counts| && counts[i] == 0
    ensures FrameAt(es, i).Some? && FrameAt(es, i).value in refs && refs[FrameAt(es, i).value] == 0
  {
    OrdinalRoundTrip(es, i);
  }

  ghost function ZeroRefs(es: seq<Extent>): (refs: map<nat, nat>)
    requires WellFormed(es)
    ensures forall f: nat :: f in refs <==> IndexOf(es, f).Some?
    ensures forall f | f in refs :: refs[f] == 0
  {
    NumberedFrames(es);
    map f | f in FrameSet(es) && IndexOf(es, f).Some? :: 0
  }

  ghost function FrameSet(es: seq<Extent>): set<nat>
    requires WellFormed(es)
  {
    set i: nat | i < Total(es) && FrameAt(es, i).Some? :: FrameAt(es, i).value
  }

  lemma NumberedFrames(es: seq<Extent>)
    requires WellFormed(es)
    ensures forall f: nat | IndexOf(es, f).Some? :: f in FrameSet(es)
  {
    forall f: nat | IndexOf(es, f).Some?
      ensures f in FrameSet(es)
    {
      AddressRoundTrip(es, f);
      assert FrameAt(es, IndexOf(es, f).value).Some?;
    }
  }

  lemma ZeroRefsAgree(es: seq<Extent>, counts: seq<Count>)
    requires WellFormed(es) && Total(es) == |counts| && forall i | 0 <= i < |counts| :: counts[i] == 0
    ensures RefsAgree(es, counts, ZeroRefs(es))
  {
  }

  lemma {:induction false} AllFree(counts: seq<Count>)
    requires forall i | 0 <= i < |counts| :: counts[i] == 0
    ensures Tally(counts, Free) == |counts|
    ensures Tally(counts, Pinned) == Tally(counts, Exclusive) == Tally(counts, Shared) == 0
  {
    if counts != [] {
      AllFree(counts[1..]);
    }
  }

  /** The free counter is positive exactly when some managed frame is free. */
  lemma FreeFrames(es: seq<Extent>, counts: seq<Count>, refs: map<nat, nat>)
    requires WellFormed(es) && Disjoint(es) && Total(es) == |counts| && RefsAgree(es, counts, refs)
    ensures 0 < Tally(counts, Free) <==> exists f | f in refs :: refs[f] == 0
  {
    TallyZero(counts, FrameLedger.Free);
    if i :| 0 <= i < |counts| && UseOf(counts[i]) == Free {
      OrdinalRoundTrip(es, i);
      assert FrameAt(es, i).value in refs;
    }
  }

  // ----------------------------------------------------------------------- boot

  /** Pages for one bit and one refcount per frame, each part on an 8-byte boundary, and for diagnostics. */
  function MetadataPages(total: nat, shadowBytes: nat): nat {
    var refcounts := (total + 63) / 64 * 8;
    var shadow := (refcounts + total * 4 + 7) / 8 * 8;
    (shadow + shadowBytes + 0xfff) / 0x1000
  }

  predicate InRun(start: nat, pages: nat, f: nat) {
    start <= f < start + pages * 0x1000 && f % 0x1000 == 0
  }

  /** The run at the chosen start lies in one extent. */
  lemma RunIsCovered(es: seq<Extent>, pages: nat, page: nat)
    requires WellFormed(es) && MetadataStart(es, pages).Some? && page < pages
    ensures MetadataStart(es, pages).value % 0x1000 == 0
    ensures IndexOf(es, MetadataStart(es, pages).value + page * 0x1000).Some?
  {
    var k := FirstFit(es, pages);
    CoversByOrdinal(es[k], page);
    assert Covers(es[k], es[k].start + page * 0x1000);
    AddressRoundTrip(es, es[k].start + page * 0x1000);
  }

  lemma RunNext(start: nat, page: nat, f: nat)
    requires start % 0x1000 == 0
    ensures InRun(start, page + 1, f) <==> InRun(start, page, f) || f == start + page * 0x1000
  {
  }

  /** The frames counted, by address, once a run of pages has been pinned: all free. */
  ghost predicate FreeBut(refs: map<nat, nat>, es: seq<Extent>, start: nat, pages: nat)
    requires WellFormed(es)
  {
    && (forall f: nat :: f in refs <==> IndexOf(es, f).Some? && !InRun(start, pages, f))
    && forall f | f in refs :: refs[f] == 0
  }

  lemma FreeButNext(refs: map<nat, nat>, es: seq<Extent>, start: nat, page: nat)
    requires WellFormed(es) && FreeBut(refs, es, start, page) && start % 0x1000 == 0
    ensures FreeBut(refs - {start + page * 0x1000}, es, start, page + 1)
  {
    hide IndexOf, InRun;
    forall f: nat
      ensures InRun(start, page + 1, f) <==> InRun(start, page, f) || f == start + page * 0x1000
    {
      RunNext(start, page, f);
    }
  }

  lemma AllFreeAtFirst(refs: map<nat, nat>, es: seq<Extent>, start: nat)
    requires WellFormed(es) && (forall f: nat :: f in refs <==> IndexOf(es, f).Some?)
            && forall f | f in refs :: refs[f] == 0
    ensures FreeBut(refs, es, start, 0)
  {
    hide IndexOf;
  }

  /**
   The allocator at boot: refused exactly if no frame is usable or no extent has
   room for the metadata; otherwise the frames at the start of the first extent
   that has are pinned for it, and every other usable frame is free.
   */
  method InitFrameAllocator(regions: seq<Region>, shadowBytes: nat) returns (r: Option<FrameAllocator>)
    requires Disjoint(Extents(regions))
    ensures var es := Extents(regions);
            var pages := MetadataPages(Total(es), shadowBytes);
            && (r.None? <==> Total(es) == 0 || MetadataStart(es, pages).None?)
            && (r.Some? ==>
                  && fresh(r.value) && r.value.Valid() && r.value.regions == regions
                  && FreeBut(r.value.refs, es, MetadataStart(es, pages).value, pages))
  {
    hide MetadataPages, MetadataStart, Extents, IndexOf, FreeBut, Disjoint;
    var total := Total(Extents(regions));
    if total == 0 {
      return None;
    }
    var pages := MetadataPages(total, shadowBytes);
    var start := FindMetadataExtent(regions, pages);
    if start.None? {
      return None;
    }
    var a := new FrameAllocator(regions);
    PinRun(a, start.value, pages);
    return Some(a);
  }

  /** Pins a new allocator's metadata, page by page. */
  method PinRun(a: FrameAllocator, start: nat, pages: nat)
    requires a.Valid() && MetadataStart(Extents(a.regions), pages) == Some(start)
    requires forall f: nat :: f in a.refs <==> IndexOf(Extents(a.regions), f).Some?
    requires forall f | f in a.refs :: a.refs[f] == 0
    modifies a, a.bitmap, a.refcounts
    ensures a.Valid() && FreeBut(a.refs, Extents(a.regions), start, pages)
  {
    hide MetadataStart, Extents, IndexOf, FreeBut, Agrees, Disjoint;
    ghost var es := Extents(a.regions);
    AllFreeAtFirst(a.refs, es, start);
    var page := 0;
    while page < pages
      invariant 0 <= page <= pages && a.Valid() && FreeBut(a.refs, es, start, page)
    {
      RunIsCovered(es, pages, page);
      FreeButNext(a.refs, es, start, page);
      NoneIssued(a.refs, es, start, page, start + page * 0x1000);
      var pinned := a.PinFrame(start + page * 0x1000);
      page := page + 1;
    }
  }

  lemma NoneIssued(refs: map<nat, nat>, es: seq<Extent>, start: nat, page: nat, f: nat)
    requires WellFormed(es) && FreeBut(refs, es, start, page)
    ensures f in refs ==> refs[f] == 0
  {
  }
}
