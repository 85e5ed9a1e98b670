/**
 The memory mapper: the walks, the rollback loops and the copy-on-write fault
 path over in-place page tables and the frame refcounts.
 */
module MemoryMapping {
  import opened Base
  import opened FramePool
  import opened PageTables
  import opened PageSteps
  import opened PageWalk
  import opened SpaceView
  import opened PageEffects
  import opened PagePaths
  import opened CowSteps
  import opened UserRange
  import opened RegionSteps
  import opened DestroySteps
  import opened PrivateFrames

  datatype UserPerms = ReadExecute | ReadOnly | ReadWrite {
    function LeafFlags(): Flags {
      Flags(present := true, writable := ReadWrite?, user := true, huge := false, noExecute := !ReadExecute?,
          cow := false)
    }
  }

  datatype MapError = FrameAllocationFailed | PageAlreadyMapped | PageNotMapped | VaOutOfRange

  datatype CowOutcome = NotCow | Upgraded | Copied | OutOfFrames

  class MemoryMapper {
    var phys: Memory
    var refs: map<Frame, nat>
    /** Test hook of the allocator: 0 fails the next allocation, -1 is off. */
    var failAfter: int
    const kernel: seq<Entry>
    ghost var level: map<Frame, nat>
    ghost var owner: map<Frame, Slot>
    ghost var holders: map<Frame, nat>
    /** How often a frame, or one more reference to a frame, has been refused so far. */
    ghost var shortages: nat

    ghost function View(): State
      reads this
    {
      State(phys, refs, level, owner, holders, kernel)
    }

    /** Invariant between calls: the tables are trees, fully accounted, none empty. */
    ghost predicate Valid()
      reads this
    {
      Inv(View()) && Nonempty(View(), {}) && Attached(View(), {})
    }

    /** At boot there are no user tables: every counted reference is held by the kernel. */
    constructor (memory: Memory, counts: map<Frame, nat>, kernel: seq<Entry>, failAfter: int)
      requires |kernel| == 512 && counts.Keys <= memory.Keys
      ensures Valid() && phys == memory && refs == counts && holders == counts && this.kernel == kernel
      ensures level == map[] && Spaces(phys, level) == map[] && shortages == 0
    {
      phys, refs, shortages := memory, counts, 0;
      this.failAfter := failAfter;
      level, owner, holders := map[], map[], counts;
      this.kernel := kernel;
      new;
      BootInv(View());
    }

    // ------------------------------------------------------------- allocator

    /** Any free frame may be handed out; none, only on injected failure or exhaustion. */
    method AllocateFrame() returns (r: Option<Frame>)
      requires Inv(View())
      modifies this`refs, this`holders, this`failAfter, this`shortages
      ensures shortages == old(shortages) + One(r.None?)
      ensures Inv(View()) && Allocated(old(refs), refs, r)
      ensures r.None? ==> View() == old(View())
      ensures r.Some? ==>
                && Fresh(View(), r.value) && r.value !in level
                && r.value in old(refs) && Count(old(View()), r.value) == 0
                && View() == old(View()).(refs := refs, holders := old(holders)[r.value := 1])
      ensures r.Some? <==> old(failAfter) != 0 && exists f | f in old(refs) :: old(refs)[f] == 0
    {
      if failAfter == 0 {
        shortages := shortages + 1;
        return None;
      }
      if 0 < failAfter {
        failAfter := failAfter - 1;
      }
      if f :| f in refs && refs[f] == 0 {
        AllocateInv(View(), f);
        refs := refs[f := 1];
        holders := holders[f := 1];
        return Some(f);
      }
      shortages := shortages + 1;
      return None;
    }

    /** Drops a reference if there is one; the accounts stay right exactly if it was one held outside the tables. */
    method ReleaseFrame(f: Frame) returns (ok: bool)
      requires Inv(View())
      modifies this`refs, this`holders
      ensures Released(old(refs), refs, f, ok) && (0 < old(Held(View(), f)) ==> ok)
      ensures ok ==> View() == old(View()).(refs := Minus(old(refs), f), holders := Minus(old(holders), f))
      ensures !ok ==> View() == old(View())
      ensures Inv(View()) <==> !ok || 0 < old(Held(View(), f))
    {
      ReleaseCounts(View(), f);
      ok := f in refs && 0 < refs[f];
      if ok {
        refs := refs[f := refs[f] - 1];
        holders := Minus(holders, f);
      }
    }

    /** Adds a reference for a second leaf of a frame; fails at the count's limit. */
    method RetainLeafFrame(f: Frame) returns (ok: bool)
      modifies this`refs, this`shortages
      ensures Retained(old(refs), refs, f, ok) && shortages == old(shortages) + One(!ok)
    {
      ok := f in refs && 0 < refs[f] <= MAX_RETAIN;
      if ok {
        refs := refs[f := refs[f] + 1];
      } else {
        shortages := shortages + 1;
      }
    }

    /** A fresh frame becomes the root of an empty address space. */
    method InstallRoot(f: Frame, table: Content)
      requires |kernel| == 512 && table == RootTable(kernel)
      modifies this`phys, this`level, this`holders
      ensures View() == AddRoot(old(View()), f)
    {
      phys := phys[f := table];
      level := level[f := 4];
      holders := holders[f := 0];
    }

    // ----------------------------------------------------------------- walks

    /** The three-step walk to the slot of a page's leaf. */
    method LeafSlotPtr(l4: Frame, pg: Page) returns (r: Option<Slot>)
      requires |pg| == 4
      ensures r == SlotOf(phys, l4, pg)
    {
      var t := l4;
      var d := 0;
      while d < 3
        invariant 0 <= d <= 3 && TableAt(phys, l4, pg, d) == Some(t)
      {
        var entry := EntryAt(phys, t, pg[d]);
        if entry.Unused? || !entry.flags.present || entry.flags.huge {
          assert TableAt(phys, l4, pg, d + 1).None?;
          NoTableBelow(phys, l4, pg, d + 1, 3);
          return None;
        }
        t := entry.frame;
        d := d + 1;
      }
      return Some(Slot(t, pg[3]));
    }

    method LeafInfo(l4: Frame, pg: Page) returns (r: Option<Entry>)
      requires |pg| == 4
      ensures r == var e := LeafOf(phys, l4, pg); if e.Used? && e.flags.present then Some(e) else None
    {
      var slot := LeafSlotPtr(l4, pg);
      if slot.None? {
        return None;
      }
      var e := EntryAt(phys, slot.value.table, slot.value.index);
      if e.Unused? || !e.flags.present {
        return None;
      }
      return Some(e);
    }

    // ------------------------------------------------------------------ prune

    /** Descends the path, then gives up its empty tables bottom-up. */
    method PruneEmptyPath(l4: Frame, pg: Page)
      requires Inv(View()) && IsRoot(View(), l4) && UserPage(pg)
      modifies this`phys, this`refs, this`level, this`owner, this`holders
      ensures Inv(View())
      ensures View() == PrunePath(old(View()), l4, pg, Depth(old(phys), l4, pg))
    {
      var tables := [l4];
      while |tables| < 4
        modifies {}
        invariant 1 <= |tables| <= 4
        invariant forall k | 0 <= k < |tables| :: TableAt(phys, l4, pg, k) == Some(tables[k])
        invariant Depth(phys, l4, pg) >= |tables| - 1
      {
        var entry := EntryAt(phys, tables[|tables| - 1], pg[|tables| - 1]);
        if entry.Unused? || !entry.flags.present || entry.flags.huge {
          NoTableBelow(phys, l4, pg, |tables|, 3);
          break;
        }
        tables := tables + [entry.frame];
        DepthAtLeast(phys, l4, pg, |tables| - 1);
      }
      DepthIs(phys, l4, pg, |tables| - 1);
      PruneUp(l4, pg, tables);
    }

    method PruneUp(l4: Frame, pg: Page, tables: seq<Frame>)
      requires Inv(View()) && IsRoot(View(), l4) && UserPage(pg) && 1 <= |tables| <= 4
      requires forall k | 0 <= k < |tables| :: TableAt(phys, l4, pg, k) == Some(tables[k])
      modifies this`phys, this`refs, this`level, this`owner, this`holders
      ensures Inv(View()) && View() == PrunePath(old(View()), l4, pg, |tables| - 1)
    {
      hide Inv, Pruned1, TableEmpty;
      var depth := |tables|;
      while 1 < depth
        invariant 1 <= depth <= |tables|
        invariant Inv(View()) && IsRoot(View(), l4)
        invariant forall k | 0 <= k < depth :: TableAt(phys, l4, pg, k) == Some(tables[k])
        invariant PrunePath(old(View()), l4, pg, |tables| - 1) == PrunePath(View(), l4, pg, depth - 1)
      {
        var child := tables[depth - 1];
        PruneParent(View(), l4, pg, depth - 1);
        if !TableEmpty(phys, child) {
          break;
        }
        forall k | 0 <= k < depth - 1
          ensures TableAt(Pruned1(View(), child).phys, l4, pg, k) == Some(tables[k])
        {
          PruneWalk(View(), l4, pg, depth - 1, k);
        }
        PruneWalk(View(), l4, pg, depth - 1, 0);
        GiveUpTable(child, tables[depth - 2], pg[depth - 2]);
        depth := depth - 1;
      }
    }

    /** One turn of the upward loop: clear the parent's slot, release the frame. */
    method GiveUpTable(child: Frame, parent: Frame, i: nat)
      requires Inv(View()) && child in owner && owner[child] == Slot(parent, i) && TableEmpty(phys, child)
      requires IsTable(phys, parent) && i < 512
      modifies this`phys, this`refs, this`level, this`owner, this`holders
      ensures Inv(View()) && View() == Pruned1(old(View()), child)
    {
      PruneStep(View(), child);
      phys := Put(phys, parent, i, Unused);
      refs := refs[child := refs[child] - 1];
      level := level - {child};
      owner := owner - {child};
      holders := holders[child := 0];
    }

    // -------------------------------------------------------------------- map

    /** Follows a slot to its table, creating the table if the slot is unused. */
    method CreateNextTable(t: Frame, i: nat) returns (r: Option<Frame>)
      requires Inv(View()) && TableSlotOf(View(), t, i)
      modifies this
      ensures Inv(View()) && IsTable(old(phys), t) && shortages == old(shortages) + One(r.None?)
      ensures EntryAt(old(phys), t, i).Used? ==> View() == old(View()) && r == NextTable(EntryAt(phys, t, i)) && r.Some?
      ensures r.None? ==> View() == old(View())
      ensures EntryAt(old(phys), t, i).Unused? && r.Some? ==>
                && r.value in old(refs) && Count(old(View()), r.value) == 0 && r.value != t
                && View() == Grow(old(View()), t, i, r.value)
    {
      var entry := EntryAt(phys, t, i);
      if entry.Used? {
        // the parent flags are already present: see DownAt
        assert DownAt(phys, level, owner, t, i);
        return Some(entry.frame);
      }
      r := AllocateFrame();
      if r.Some? {
        LinkTable(t, i, r.value, PARENT_FLAGS);
      }
    }

    /** Zeroes a fresh frame and makes it the table of an unused slot. */
    method LinkTable(t: Frame, i: nat, f: Frame, flags: Flags)
      requires Inv(View()) && TableSlotOf(View(), t, i) && EntryAt(phys, t, i).Unused? && Fresh(View(), f)
      requires IsTable(phys, t) && f != t && ParentFlags(flags)
      modifies this`phys, this`level, this`owner, this`holders
      ensures Inv(View()) && View() == Link(old(View()), t, i, f, flags)
    {
      hide Inv, Linked;
      LinkInv(View(), t, i, f, flags);
      phys := phys[f := EmptyTable()];
      phys := Put(phys, t, i, Used(f, flags));
      level := level[f := level[t] - 1];
      owner := owner[f := Slot(t, i)];
      holders := holders[f := 0];
    }

    /** One level of the mapping walk. */
    method ClimbOne(ghost s0: State, l4: Frame, pg: Page, k: nat, t: Frame) returns (next: Option<Frame>)
      requires Inv(s0) && Nonempty(s0, {}) && IsRoot(s0, l4) && UserPage(pg) && k < 3
      requires Climb(s0, View(), l4, pg, k) && TableAt(phys, l4, pg, k) == Some(t)
      modifies this
      ensures shortages == old(shortages) + One(next.None?)
      ensures next.Some? ==> Climb(s0, View(), l4, pg, k + 1) && TableAt(phys, l4, pg, k + 1) == next
      ensures next.None? ==> View() == old(View()) && Depth(phys, l4, pg) == k && LeafOf(s0.phys, l4, pg).Unused?
    {
      ghost var s := View();
      WalkLevel(s, l4, pg, k);
      next := CreateNextTable(t, pg[k]);
      if next.None? {
        NotMappedAbove(s, l4, pg, k);
        SameLeafBack(s0, s, l4, pg);
        DepthIs(phys, l4, pg, k);
      } else if EntryAt(s.phys, t, pg[k]).Used? {
        ClimbStay(s0, s, l4, pg, k);
      } else {
        ClimbGrow(s0, s, l4, pg, k, next.value);
      }
    }

    /** The downward half of a mapping walk: the leaf table, or where allocation failed. */
    method EnsureTables(l4: Frame, pg: Page) returns (r: Option<Frame>, ghost d: nat)
      requires Valid() && IsRoot(View(), l4) && UserPage(pg)
      modifies this
      ensures d <= 3 && Climb(old(View()), View(), l4, pg, d) && shortages == old(shortages) + One(r.None?)
      ensures r.Some? ==> d == 3 && TableAt(phys, l4, pg, 3) == r
      ensures r.None? ==> Depth(phys, l4, pg) == d && LeafOf(old(phys), l4, pg).Unused?
    {
      hide Climb, Inv, Nonempty, Attached;
      ghost var s0 := View();
      var t := l4;
      d := 0;
      ClimbStart(s0, l4, pg);
      var k := 0;
      while k < 3
        invariant 0 <= k <= 3 && d == k && shortages == old(shortages)
        invariant Climb(s0, View(), l4, pg, d) && TableAt(phys, l4, pg, k) == Some(t)
      {
        var next := ClimbOne(s0, l4, pg, k, t);
        if next.None? {
          return None, d;
        }
        t := next.value;
        k := k + 1;
        d := d + 1;
      }
      return Some(t), d;
    }

    /**
     Maps a held frame at a page, creating missing tables on the way down. On
     failure the tables created so far stay for the caller to prune.
     */
    method MapTo(l4: Frame, pg: Page, frame: Frame, flags: Flags) returns (r: Result<(), MapError>, ghost d: nat)
      requires Valid() && IsRoot(View(), l4) && UserPage(pg)
      requires 0 < Held(View(), frame) && LeafOk(phys, level, refs, Used(frame, flags))
      modifies this
      ensures Inv(View()) && IsRoot(View(), l4) && shortages == old(shortages) + One(r == Err(FrameAllocationFailed))
      ensures r.Err? ==> Climb(old(View()), View(), l4, pg, d) && d <= 3 && Depth(phys, l4, pg) == d
      ensures r.Err? ==> r.error.FrameAllocationFailed? || r.error.PageAlreadyMapped?
      ensures r == Err(PageAlreadyMapped) <==> LeafOf(old(phys), l4, pg).Used?
      ensures r.Ok? ==> Valid() && PageSet(old(View()), View(), l4, pg, Used(frame, flags))
      ensures r.Ok? ==> holders == Minus(old(holders), frame) && MappedFrom(old(View()), View(), l4, pg, frame)
      ensures r.Ok? ==> Bytes(phys, frame) == old(Bytes(phys, frame)) && KeepsOthers(old(View()), View(), frame)
    {
      hide Climb, Inv, Nonempty, Attached, PageSet, MappedFrom, LeafOk, KeepsOthers;
      ghost var s0 := View();
      var t;
      t, d := EnsureTables(l4, pg);
      ClimbLeaf(s0, View(), l4, pg, d);
      if t.None? {
        return Err(FrameAllocationFailed), d;
      }
      if EntryAt(phys, t.value, pg[3]).Used? {
        return Err(PageAlreadyMapped), d;
      }
      FinishMap(s0, l4, pg, t.value, frame, flags);
      return Ok(()), d;
    }

    method FinishMap(ghost s0: State, l4: Frame, pg: Page, t: Frame, frame: Frame, flags: Flags)
      requires Inv(s0) && Nonempty(s0, {}) && IsRoot(s0, l4) && UserPage(pg) && Climb(s0, View(), l4, pg, 3)
      requires TableAt(phys, l4, pg, 3) == Some(t) && LeafOf(phys, l4, pg).Unused?
      requires 0 < Held(s0, frame) && LeafOk(s0.phys, s0.level, s0.refs, Used(frame, flags))
      modifies this`phys, this`holders
      ensures Valid() && PageSet(s0, View(), l4, pg, Used(frame, flags))
      ensures holders == Minus(s0.holders, frame) && MappedFrom(s0, View(), l4, pg, frame)
      ensures Bytes(phys, frame) == Bytes(s0.phys, frame) && KeepsOthers(s0, View(), frame)
    {
      hide KeepsPrivate, KeepsOthers;
      ClimbMap(s0, View(), l4, pg, frame, flags);
      ClimbKeeps(s0, View(), l4, pg, frame, flags);
      SetLeaf(t, pg[3], frame, flags);
    }

    method SetLeaf(t: Frame, i: nat, frame: Frame, flags: Flags)
      requires IsTable(phys, t) && i < 512
      modifies this`phys, this`holders
      ensures View() == old(View()).(phys := Put(old(phys), t, i, Used(frame, flags)),
                                     holders := Minus(old(holders), frame))
    {
      phys := Put(phys, t, i, Used(frame, flags));
      holders := Minus(holders, frame);
    }

    /** Undoes a failed mapping walk. */
    method Undo(ghost s0: State, l4: Frame, pg: Page, ghost d: nat)
      requires Inv(s0) && Nonempty(s0, {}) && Attached(s0, {}) && IsRoot(s0, l4) && UserPage(pg)
      requires d <= 3 && Climb(s0, View(), l4, pg, d) && Depth(phys, l4, pg) == d
      modifies this`phys, this`refs, this`level, this`owner, this`holders
      ensures Valid() && Restored(s0, View())
    {
      UndoablePruned(s0, View(), l4, pg, d);
      PruneEmptyPath(l4, pg);
      RestoredViews(s0, View());
    }

    /** Installs a private frame as a user leaf; on failure the frame stays with the caller. */
    method MapPrivateFrameInto(l4: Frame, pg: Page, frame: Frame, flags: Flags) returns (r: Result<(), MapError>)
      requires Valid() && IsRoot(View(), l4) && UserPage(pg)
      requires 0 < Held(View(), frame) && LeafOk(phys, level, refs, Used(frame, flags))
      modifies this
      ensures Valid() && shortages == old(shortages) + One(r == Err(FrameAllocationFailed))
      ensures r == Err(PageAlreadyMapped) <==> LeafOf(old(phys), l4, pg).Used?
      ensures r.Err? ==> r.error.FrameAllocationFailed? || r.error.PageAlreadyMapped?
      ensures r.Err? ==> Restored(old(View()), View())
      ensures r.Ok? ==>
                PageSet(old(View()), View(), l4, pg, Used(frame, flags)) && holders == Minus(old(holders), frame)
      ensures r.Ok? ==> Bytes(phys, frame) == old(Bytes(phys, frame)) && KeepsOthers(old(View()), View(), frame)
    {
      hide Climb, Inv, Nonempty, Attached, PageSet, MappedFrom, LeafOk, Restored, KeepsOthers;
      ghost var s0, d := View(), 0;
      r, d := MapTo(l4, pg, frame, flags);
      if r.Err? {
        Undo(s0, l4, pg, d);
      }
    }

    // ----------------------------------------------------------------- region

    /** Unmaps the first `k` pages of a region, last page first. */
    method UnwindRegion(l4: Frame, start: nat, k: nat)
      requires Valid() && IsRoot(View(), l4) && forall j | 0 <= j < k :: UserPage(PageOf(start, j))
      modifies this`phys, this`refs, this`level, this`owner, this`holders
      ensures Valid() && View() == Unwound(old(View()), l4, start, k)
    {
      hide Inv, Nonempty, Attached, Unmapped, PageSet;
      var installed := k;
      while 0 < installed
        invariant 0 <= installed <= k && Valid() && IsRoot(View(), l4)
        invariant Unwound(View(), l4, start, installed) == Unwound(old(View()), l4, start, k)
      {
        installed := installed - 1;
        UnmappedStable(View(), l4, PageOf(start, installed));
        var _ := UnmapPageFrom(l4, PageOf(start, installed));
      }
    }

    /** One page of a region: a zeroed frame, mapped; on failure nothing is left of it. */
    method MapRegionPage(ghost s0: State, l4: Frame, start: nat, frames: seq<Frame>, flags: Flags)
      returns (r: Result<Frame, MapError>)
      requires forall j | 0 <= j <= |frames| :: UserPage(PageOf(start, j))
      requires start % 0x1000 == 0 && PageAddress(start, |frames|) < USER_VA_RANGE_END
      requires PageTables.LeafFlags(flags) && !flags.cow
      requires var view := UserPageView(ZeroPage(), flags.writable, !flags.noExecute, flags.user);
               RegionState(s0, View(), l4, start, frames, flags, view)
      modifies this
      ensures shortages == old(shortages) + One(r == Err(FrameAllocationFailed))
      ensures r.Ok? ==>
                var view := UserPageView(ZeroPage(), flags.writable, !flags.noExecute, flags.user);
                RegionState(s0, View(), l4, start, frames + [r.value], flags, view)
      ensures r.Ok? ==> KeepsPrivate(old(View()), View())
      ensures r.Err? ==> Stable(View()) && IsRoot(View(), l4) && Restored(old(View()), View())
      ensures r.Err? ==> r.error.FrameAllocationFailed?
                         || (r.error.PageAlreadyMapped? && LeafOf(s0.phys, l4, PageOf(start, |frames|)).Used?)
    {
      hide PageSet, SameViews, RegionMapped, Unwound, Climb, MappedFrom, Vacant, Inv, Nonempty, Attached, Restored,
           KeepsPrivate, KeepsOthers;
      ghost var s, view := View(), UserPageView(ZeroPage(), flags.writable, !flags.noExecute, flags.user);
      var pg := PageOf(start, |frames|);
      NextPageUntouched(s0, s, l4, start, frames, flags, view);
      var frame := AllocatePrivateZeroedFrame();
      if frame.None? {
        RestoredSelf(s);
        return Err(FrameAllocationFailed);
      }
      ghost var a, d := View(), 0;
      StagedKeeps(s, frame.value, ZeroPage());
      SameLeafBack(s, a, l4, pg);
      var result;
      result, d := MapTo(l4, pg, frame.value, flags);
      if result.Err? {
        DropFailedPage(s, l4, pg, d, frame.value);
        return Err(result.error);
      }
      RegionNext(s0, s, a, View(), l4, start, frames, flags, view, frame.value, ZeroPage());
      FreshMapped(s, a, View(), frame.value);
      return Ok(frame.value);
    }

    method DropFailedPage(ghost s: State, l4: Frame, pg: Page, ghost d: nat, frame: Frame)
      requires Stable(s) && IsRoot(s, l4) && UserPage(pg) && frame in s.refs && Count(s, frame) == 0
      requires d <= 3 && Climb(Staged(s, frame, ZeroPage()), View(), l4, pg, d) && Depth(phys, l4, pg) == d
      modifies this`phys, this`refs, this`level, this`owner, this`holders
      ensures Valid() && Restored(s, View())
    {
      FailedPage(s, View(), l4, pg, d, frame, ZeroPage());
      var _ := ReleaseFrame(frame);
      PruneEmptyPath(l4, pg);
      RestoredStable(s, View());
    }

    /**
     Maps a run of zeroed pages. A failure at any allocation, or at a page that
     is already mapped, leaves refcounts, tables and every space as they were.
     */
    method MapUserRegionInto(l4: Frame, start: nat, pages: nat, perms: UserPerms)
      returns (r: Result<(), MapError>, frames: seq<Frame>)
      requires Valid() && IsRoot(View(), l4) && start < U64_END && pages < U64_END
      modifies this
      ensures Valid() && shortages == old(shortages) + One(r == Err(FrameAllocationFailed))
      ensures r.Err? ==> r.error.VaOutOfRange? || r.error.FrameAllocationFailed? || r.error.PageAlreadyMapped?
      ensures r == Err(VaOutOfRange) <==> !UserRangeOk(start, pages)
      ensures r.Err? ==> Restored(old(View()), View())
      ensures r == Err(PageAlreadyMapped) ==>
                exists k :: 0 <= k < pages && LeafOf(old(phys), l4, PageOf(start, k)).Used?
      ensures r.Ok? ==> |frames| == pages && holders == old(holders) && Vacant(old(phys), l4, start, pages)
      ensures r.Ok? ==> forall k | 0 <= k < pages :: Granted(LeafOf(phys, l4, PageOf(start, k)), frames[k], perms)
      ensures r.Ok? ==>
                RegionMapped(old(View()), View(), l4, start, frames, perms.LeafFlags(),
                             UserPageView(ZeroPage(), perms.ReadWrite?, perms.ReadExecute?, true))
      ensures KeepsPrivate(old(View()), View())
    {
      hide KeepsPrivate, RegionMapped, Unwound, Restored, Nonempty, Attached, Inv, Vacant;
      frames := [];
      var valid := ValidateUserRange(start, pages);
      if !valid {
        RestoredSelf(View());
        KeepsSelf(View());
        return Err(VaOutOfRange), frames;
      }
      ghost var s0 := View();
      KeepsSelf(s0);
      ghost var view := UserPageView(ZeroPage(), perms.ReadWrite?, perms.ReadExecute?, true);
      RegionStart(s0, l4, start, perms.LeafFlags(), view);
      while |frames| < pages
        invariant |frames| <= pages && shortages == old(shortages) && KeepsPrivate(s0, View())
        invariant RegionState(s0, View(), l4, start, frames, perms.LeafFlags(), view)
      {
        ghost var s := View();
        var page := MapRegionPage(s0, l4, start, frames, perms.LeafFlags());
        if page.Err? {
          UnwoundRespects(s, View(), l4, start, |frames|);
          RestoredTransitive(s0, Unwound(s, l4, start, |frames|), Unwound(View(), l4, start, |frames|));
          UnwindRegion(l4, start, |frames|);
          RestoredKeeps(s0, View());
          return Err(page.error), frames;
        }
        KeepsTwice(s0, s, View());
        frames := frames + [page.value];
      }
      RegionGranted(s0, View(), l4, start, frames, perms, view);
      return Ok(()), frames;
    }

    // ------------------------------------------------------------------ unmap

    /** Clears one leaf, releases its frame and prunes the path. */
    method UnmapPageFrom(l4: Frame, pg: Page) returns (r: Result<Frame, MapError>)
      requires Valid() && IsRoot(View(), l4) && UserPage(pg)
      modifies this`phys, this`refs, this`level, this`owner, this`holders
      ensures Valid() && View() == Unmapped(old(View()), l4, pg)
      ensures LeafOf(old(phys), l4, pg).Unused? ==> r == Err(PageNotMapped) && View() == old(View())
      ensures LeafOf(old(phys), l4, pg).Used? ==>
                && r == Ok(LeafOf(old(phys), l4, pg).frame)
                && PageSet(old(View()), View(), l4, pg, Unused) && holders == old(holders)
      ensures KeepsPrivate(old(View()), View())
    {
      hide KeepsPrivate;
      ghost var s := View();
      UnmappedKeeps(s, l4, pg);
      var slot := LeafSlotPtr(l4, pg);
      if slot.None? {
        return Err(PageNotMapped);
      }
      var leaf := EntryAt(phys, slot.value.table, slot.value.index);
      if leaf.Unused? {
        return Err(PageNotMapped);
      }
      ClearAndDrop(l4, pg, slot.value);
      PruneEmptyPath(l4, pg);
      UnmappedOk(s, l4, pg);
      return Ok(leaf.frame);
    }

    method ClearAndDrop(l4: Frame, pg: Page, slot: Slot)
      requires Valid() && IsRoot(View(), l4) && UserPage(pg) && LeafOf(phys, l4, pg).Used?
      requires SlotOf(phys, l4, pg) == Some(slot)
      modifies this`phys, this`refs, this`holders
      ensures Inv(View()) && IsRoot(View(), l4) && Depth(phys, l4, pg) == 3
      ensures View() == Dropped(Cleared(old(View()), slot), LeafOf(old(phys), l4, pg).frame)
    {
      ghost var s := View();
      ClearedInv(s, l4, pg);
      var frame := EntryAt(phys, slot.table, slot.index).frame;
      ClearLeaf(slot);
      var _ := ReleaseFrame(frame);
      DepthIs(phys, l4, pg, 3);
    }

    method ClearLeaf(slot: Slot)
      requires IsTableNow(phys, slot) && EntryAt(phys, slot.table, slot.index).Used?
      modifies this`phys, this`holders
      ensures View() == Cleared(old(View()), slot)
    {
      ghost var frame := EntryAt(phys, slot.table, slot.index).frame;
      phys := Put(phys, slot.table, slot.index, Unused);
      holders := Plus(holders, frame);
    }

    // ------------------------------------------------------------------- move

    /**
     Moves a resident leaf to an unmapped page without touching its frame's
     refcount. A hole stays a hole; on failure nothing has changed.
     */
    method MoveUserPage(l4: Frame, src: Page, dst: Page) returns (r: Result<bool, MapError>)
      requires Valid() && IsRoot(View(), l4) && UserPage(src) && UserPage(dst)
      modifies this
      ensures Valid() && shortages == old(shortages) + One(r == Err(FrameAllocationFailed))
      ensures src == dst ==> r == Ok(LeafOf(phys, l4, src).Used?) && View() == old(View())
      ensures src != dst ==> (r == Ok(false) <==> LeafOf(old(phys), l4, src).Unused?)
      ensures r == Ok(false) ==> View() == old(View())
      ensures src != dst && LeafOf(old(phys), l4, src).Used? && LeafOf(old(phys), l4, dst).Used? ==>
                r == Err(PageAlreadyMapped) && View() == old(View())
      ensures r.Err? ==>
                r.error.FrameAllocationFailed? || (r.error.PageAlreadyMapped? && LeafOf(old(phys), l4, dst).Used?)
      ensures r.Err? ==> Restored(old(View()), View())
      ensures src != dst && r == Ok(true) ==>
                PageMoved(old(View()), View(), l4, src, dst) && holders == old(holders)
      ensures KeepsPrivate(old(View()), View())
    {
      hide KeepsPrivate, Climb, Inv, Nonempty, Attached, PageMoved, Restored;
      ghost var s0 := View();
      var from := LeafInfo(l4, src);
      LeavesPresent(s0, l4, src);
      LeavesPresent(s0, l4, dst);
      KeepsSelf(s0);
      if src == dst {
        return Ok(from.Some?);
      }
      if from.None? {
        return Ok(false);
      }
      var to := LeafInfo(l4, dst);
      if to.Some? {
        RestoredSelf(s0);
        return Err(PageAlreadyMapped);
      }
      ghost var d;
      var t;
      t, d := EnsureTables(l4, dst);
      if t.None? {
        Undo(s0, l4, dst, d);
        RestoredKeeps(s0, View());
        return Err(FrameAllocationFailed);
      }
      CarryLeaf(s0, l4, src, dst, t.value, from.value);
      return Ok(true);
    }

    /** Stores the leaf at its destination, then detaches the old one and prunes its path. */
    method CarryLeaf(ghost s0: State, l4: Frame, src: Page, dst: Page, t: Frame, leaf: Entry)
      requires Inv(s0) && Nonempty(s0, {}) && IsRoot(s0, l4) && UserPage(src) && UserPage(dst) && src != dst
      requires Climb(s0, View(), l4, dst, 3) && TableAt(phys, l4, dst, 3) == Some(t)
      requires LeafOf(s0.phys, l4, dst).Unused? && LeafOf(s0.phys, l4, src) == leaf && leaf.Used?
      modifies this`phys, this`refs, this`level, this`owner, this`holders
      ensures Valid() && PageMoved(s0, View(), l4, src, dst) && holders == s0.holders && KeepsPrivate(s0, View())
    {
      hide KeepsPrivate;
      ghost var s := View();
      QuietKeeps(s0, s);
      SameLeafBack(s0, s, l4, src);
      SameLeafBack(s0, s, l4, dst);
      MovedOk(s0, s, l4, src, dst);
      var slot := LeafSlotPtr(l4, src);
      MoveKeeps(s, l4, src, dst);
      StoreMove(slot.value, Slot(t, dst[3]), leaf);
      ghost var b := View();
      DepthIs(phys, l4, src, 3);
      PruneEmptyPath(l4, src);
      PrunePathOk(b, l4, src, 3);
      PrunePathKeeps(b, l4, src, 3);
      KeepsTwice(s0, s, b);
      KeepsTwice(s0, b, View());
      PageMovedFrom(s0, s, View(), l4, src, dst);
    }

    method StoreMove(src: Slot, dst: Slot, leaf: Entry)
      requires IsTableNow(phys, src) && IsTableNow(phys, dst) && EntryAt(phys, src.table, src.index) == leaf
      modifies this`phys
      ensures View() == Moved(old(View()), src, dst)
    {
      phys := Put(phys, dst.table, dst.index, leaf);
      phys := Put(phys, src.table, src.index, Unused);
    }

    // ---------------------------------------------------------------- destroy

    /** Releases every leaf and table below a table that no slot names, then the table itself. */
    method DestroyUserTable(t: Frame, k: nat) returns (ghost gone: set<Frame>)
      requires Inv(View()) && t in level && level[t] == k && t !in owner
      modifies this`phys, this`refs, this`level, this`owner, this`holders
      ensures Inv(View()) && Destroyed(old(View()), View(), t, gone)
      decreases k, 1
    {
      ghost var s0 := View();
      gone := {};
      NothingRemoved(s0, t);
      var i := 0;
      while i < 512
        invariant 0 <= i <= 512 && Inv(View()) && t in level && level[t] == k && t !in owner
        invariant Removal(s0, View(), t, gone)
        invariant forall j: nat | j < i && UserSlot(k, j) :: EntryAt(phys, t, j).Unused?
      {
        if UserSlot(k, i) && EntryAt(phys, t, i).Used? {
          gone := DestroyEntry(s0, t, k, i, gone);
        }
        i := i + 1;
      }
      GiveUpInv(View(), t);
      RemovalGivenUp(s0, View(), t, gone);
      GiveUp(t);
    }

    /** One used slot: cleared, then its leaf released or its table destroyed. */
    method DestroyEntry(ghost s0: State, t: Frame, k: nat, i: nat,
        ghost gone: set<Frame>) returns (ghost more: set<Frame>)
      requires Inv(View()) && t in level && level[t] == k && t !in owner && UserSlot(k, i)
      requires EntryAt(phys, t, i).Used? && Removal(s0, View(), t, gone)
      modifies this`phys, this`refs, this`level, this`owner, this`holders
      ensures Inv(View()) && t in level && level[t] == k && t !in owner && Removal(s0, View(), t, more)
      ensures forall j: nat :: EntryAt(phys, t, j) == if j == i then Unused else old(EntryAt(phys, t, j))
      decreases k, 0
    {
      hide Removal;
      ghost var s := View();
      var entry := EntryAt(phys, t, i);
      if k == 1 {
        RemovalLeaf(s0, s, t, gone, i);
        ClearLeaf(Slot(t, i));
        var _ := ReleaseFrame(entry.frame);
        more := gone;
      } else {
        assert DownAt(phys, level, owner, t, i);
        DetachInv(s, entry.frame);
        DetachTable(t, i, entry.frame);
        ghost var d := View();
        ghost var below := DestroyUserTable(entry.frame, k - 1);
        UnownedStays(d, entry.frame, below, t);
        RemovalChild(s0, s, View(), t, gone, entry.frame, below);
        more := gone + {entry.frame} + below;
      }
    }

    method DetachTable(t: Frame, i: nat, child: Frame)
      requires IsTable(phys, t) && i < 512 && child in owner && owner[child] == Slot(t, i)
      modifies this`phys, this`owner
      ensures View() == Detach(old(View()), child)
    {
      phys := Put(phys, t, i, Unused);
      owner := owner - {child};
    }

    method GiveUp(t: Frame)
      requires t in refs && refs[t] == 1
      modifies this`refs, this`level, this`holders
      ensures View() == GivenUp(old(View()), t)
    {
      refs := refs[t := refs[t] - 1];
      level := level - {t};
      holders := holders[t := 0];
    }

    /** Drops a whole address space; every other space is left exactly as it was. */
    method DestroyUserAddressSpace(l4: Frame) returns (ghost gone: set<Frame>)
      requires Valid() && IsRoot(View(), l4)
      modifies this`phys, this`refs, this`level, this`owner, this`holders
      ensures Valid() && holders == old(holders)
      ensures Spaces(phys, level) == old(Spaces(phys, level)) - {l4}
      ensures Translations(phys, level) == old(Translations(phys, level)) - {l4}
      ensures Destroyed(old(View()), View(), l4, gone) && KeepsPrivate(old(View()), View())
    {
      ghost var s := View();
      RootUnowned(s, l4);
      gone := DestroyUserTable(l4, 4);
      DestroyedViews(s, View(), l4, gone);
      DestroyedShape(s, View(), l4, gone);
      DestroyedKeeps(s, View(), l4, gone);
    }

    // -------------------------------------------------------------- copy on write

    method SetEntry(at: Slot, e: Entry)
      requires IsTableNow(phys, at)
      modifies this`phys
      ensures View() == old(View()).(phys := Put(old(phys), at.table, at.index, e))
    {
      phys := Put(phys, at.table, at.index, e);
    }

    /**
     Resolves a write fault on a copy-on-write leaf: in place when this leaf is
     the frame's only reference, else onto a private copy. Programs see no
     difference, and afterwards the page can be written.
     */
    method ResolveCow(l4: Frame, pg: Page) returns (o: CowOutcome)
      requires Valid() && IsRoot(View(), l4) && UserPage(pg)
      modifies this
      ensures Valid() && Spaces(phys, level) == old(Spaces(phys, level))
      ensures holders == old(holders) && level == old(level) && owner == old(owner)
      ensures o.NotCow? <==> !(LeafOf(old(phys), l4, pg).Used? && LeafOf(old(phys), l4, pg).flags.cow)
      ensures o.NotCow? || o.OutOfFrames? ==> View() == old(View())
      ensures shortages == old(shortages) + One(o.OutOfFrames?)
      ensures o.Upgraded? || o.Copied? ==>
                && LeafOf(phys, l4, pg).Used?
                && LeafOf(phys, l4, pg).flags == LeafOf(old(phys), l4, pg).flags.(writable := true, cow := false)
                && OneChanged(old(View()), View(), l4, pg, LeafOf(phys, l4, pg))
      ensures !o.NotCow? ==> (o.Upgraded? <==> Count(old(View()), LeafOf(old(phys), l4, pg).frame) == 1)
      ensures o.Upgraded? ==> LeafOf(phys, l4, pg).frame == LeafOf(old(phys), l4, pg).frame && refs == old(refs)
      ensures o.Copied? ==> Count(old(View()), LeafOf(phys, l4, pg).frame) == 0
      ensures o.OutOfFrames? ==> old(failAfter) == 0 || forall f | f in old(refs) :: old(refs)[f] != 0
      ensures KeepsPrivate(old(View()), View())
    {
      hide KeepsPrivate, Inv, Nonempty, Attached, OneChanged;
      ghost var s := View();
      KeepsSelf(s);
      LeavesPresent(s, l4, pg);
      var info := LeafInfo(l4, pg);
      if info.None? || !info.value.flags.cow {
        return NotCow;
      }
      var frame := info.value.frame;
      var slot := LeafSlotPtr(l4, pg);
      LeafCounted(s, l4, pg);
      if refs[frame] == 1 {
        UpgradeOk(s, l4, pg);
        UpgradeKeeps(s, l4, pg, Used(frame, Uncow(info.value.flags)));
        SetEntry(slot.value, Used(frame, Uncow(info.value.flags)));
        return Upgraded;
      }
      var copied := CopyOnWrite(l4, pg, slot.value);
      return if copied then Copied else OutOfFrames;
    }

    method CopyOnWrite(l4: Frame, pg: Page, slot: Slot) returns (copied: bool)
      requires Valid() && IsRoot(View(), l4) && UserPage(pg) && SlotOf(phys, l4, pg) == Some(slot)
      requires LeafOf(phys, l4, pg).Used? && LeafOf(phys, l4, pg).flags.cow
      modifies this
      ensures Valid() && Spaces(phys, level) == old(Spaces(phys, level))
      ensures holders == old(holders) && level == old(level) && owner == old(owner)
      ensures !copied ==> View() == old(View())
      ensures shortages == old(shortages) + One(!copied)
      ensures !copied ==> old(failAfter) == 0 || forall f | f in old(refs) :: old(refs)[f] != 0
      ensures copied ==>
                && LeafOf(phys, l4, pg).Used? && LeafOf(phys, l4, pg).flags == Uncow(LeafOf(old(phys), l4, pg).flags)
                && OneChanged(old(View()), View(), l4, pg, LeafOf(phys, l4, pg))
                && Count(old(View()), LeafOf(phys, l4, pg).frame) == 0
      ensures KeepsPrivate(old(View()), View())
    {
      hide KeepsPrivate, Inv, Nonempty, Attached, OneChanged, Spaces;
      ghost var s := View();
      var copy := AllocateFrame();
      if copy.None? {
        KeepsSelf(s);
        return false;
      }
      CowCopyOk(s, l4, pg, copy.value);
      CowFrames(s, l4, pg, copy.value);
      CopiedKeeps(s, slot, copy.value);
      StoreCopy(s, slot, copy.value);
      return true;
    }

    /** Copies the page, points the leaf at the copy and drops the old reference. */
    method StoreCopy(ghost s: State, slot: Slot, f: Frame)
      requires IsTableNow(phys, slot) && EntryAt(phys, slot.table, slot.index).Used? && f != slot.table
      requires EntryAt(phys, slot.table, slot.index).frame in phys
      requires f in s.holders && s.holders[f] == 0
      requires View() == s.(refs := s.refs[f := 1], holders := s.holders[f := 1])
      modifies this`phys, this`refs, this`holders
      ensures View() == CowCopied(s, slot, f)
    {
      var leaf := EntryAt(phys, slot.table, slot.index);
      phys := phys[f := phys[leaf.frame]];
      phys := Put(phys, slot.table, slot.index, Used(f, Uncow(leaf.flags)));
      refs := Minus(refs, leaf.frame);
      holders := holders[f := 0];
      assert holders == s.holders;
    }

    /**
     A store by a user program: through the leaf when it is writable, through the
     copy-on-write fault path when it is marked, and refused otherwise.
     */
    method UserWrite(l4: Frame, pg: Page, offset: nat, value: bv8) returns (ok: bool)
      requires Valid() && IsRoot(View(), l4) && UserPage(pg) && offset < 0x1000
      modifies this
      ensures Valid() && holders == old(holders) && level == old(level)
      ensures ok ==> CanWrite(old(Spaces(phys, level)), l4, pg)
      ensures ok ==> Spaces(phys, level) == Written(old(Spaces(phys, level)), l4, pg, offset, value)
      ensures !ok ==> Spaces(phys, level) == old(Spaces(phys, level))
      ensures shortages == old(shortages) + One(!ok && CanWrite(old(Spaces(phys, level)), l4, pg))
      ensures KeepsPrivate(old(View()), View())
    {
      hide KeepsPrivate, Inv, Nonempty, Attached, OneChanged, Spaces, Written, LeafOf;
      ghost var s := View();
      KeepsSelf(s);
      LeavesPresent(s, l4, pg);
      LeafShown(s, l4, pg);
      var leaf := LeafInfo(l4, pg);
      if leaf.None? || !leaf.value.flags.user {
        return false;
      }
      if !leaf.value.flags.writable {
        var outcome := ResolveCow(l4, pg);
        if outcome.NotCow? || outcome.OutOfFrames? {
          return false;
        }
      }
      ghost var b := View();
      StoreByte(l4, pg, offset, value);
      KeepsTwice(s, b, View());
      return true;
    }

    method StoreByte(l4: Frame, pg: Page, offset: nat, value: bv8)
      requires Valid() && IsRoot(View(), l4) && UserPage(pg) && offset < 0x1000
      requires LeafOf(phys, l4, pg).Used? && LeafOf(phys, l4, pg).flags.writable && LeafOf(phys, l4, pg).flags.user
      modifies this`phys
      ensures Valid() && CanWrite(old(Spaces(phys, level)), l4, pg)
      ensures Spaces(phys, level) == Written(old(Spaces(phys, level)), l4, pg, offset, value)
      ensures KeepsPrivate(old(View()), View())
    {
      hide KeepsPrivate;
      ghost var s := View();
      LeavesPresent(s, l4, pg);
      var leaf := LeafInfo(l4, pg);
      LeafCounted(s, l4, pg);
      StoreShown(s, l4, pg, offset, value);
      StoreKeeps(s, l4, pg, Data(Bytes(s.phys, leaf.value.frame)[offset := value]));
      StoreData(leaf.value.frame, offset, value);
    }

    method StoreData(f: Frame, offset: nat, value: bv8)
      requires f in phys && IsPageData(phys[f]) && offset < 0x1000
      modifies this`phys
      ensures View() == old(View()).(phys := old(phys)[f := Data(old(Bytes(phys, f))[offset := value])])
    {
      phys := phys[f := Data(phys[f].bytes[offset := value])];
    }

    // ------------------------------------------------------------ private frames

    method AllocatePrivateZeroedFrame() returns (r: Option<Frame>)
      requires Valid()
      modifies this
      ensures Valid() && SameViews(old(View()), View()) && level == old(level)
      ensures shortages == old(shortages) + One(r.None?)
      ensures r.None? ==> View() == old(View())
      ensures r.Some? ==>
                && Fresh(View(), r.value) && r.value !in level && holders == old(holders)[r.value := 1]
                && r.value in old(refs) && refs == old(refs)[r.value := 1] && old(refs)[r.value] == 0
                && r.value in phys && phys[r.value] == Data(ZeroPage())
                && View() == Staged(old(View()), r.value, ZeroPage())
    {
      r := AllocateFrame();
      if r.Some? {
        ghost var s := View();
        assert Nonempty(s, {});
        FillStep(s, r.value, ZeroPage());
        phys := phys[r.value := Data(ZeroPage())];
        assert View() == s.(phys := s.phys[r.value := Data(ZeroPage())]);
      }
    }

    /** Gives back a private frame that was never mapped. */
    method ReleasePrivateFrame(f: Frame)
      requires Valid() && 0 < Held(View(), f)
      modifies this`refs, this`holders
      ensures Valid() && phys == old(phys) && level == old(level)
      ensures refs == Minus(old(refs), f) && holders == Minus(old(holders), f)
    {
      var _ := ReleaseFrame(f);
    }
  }

  function ZeroPage(): (z: seq<bv8>)
    ensures |z| == 0x1000 && forall i | 0 <= i < 0x1000 :: z[i] == 0
  {
    seq(0x1000, _ => 0)
  }

  /** A leaf as its permissions ask: reachable from user mode, and no more than that allowed. */
  ghost predicate Granted(e: Entry, f: Frame, perms: UserPerms) {
    && e.Used? && e.frame == f
    && e.flags.present && e.flags.user && !e.flags.huge && !e.flags.cow
    && (e.flags.writable <==> perms == ReadWrite)
    && (e.flags.noExecute <==> perms != ReadExecute)
  }

  lemma RegionGranted(s0: State, s: State, r: Frame, start: nat, frames: seq<Frame>, perms: UserPerms,
                      view: UserPageView)
    requires RegionMapped(s0, s, r, start, frames, perms.LeafFlags(), view) && IsRoot(s, r)
    requires UserRangeOk(start, |frames|)
    ensures forall k | 0 <= k < |frames| :: Granted(LeafOf(s.phys, r, PageOf(start, k)), frames[k], perms)
  {
    var m := Translations(s0.phys, s0.level);
    forall k | 0 <= k < |frames|
      ensures Granted(LeafOf(s.phys, r, PageOf(start, k)), frames[k], perms)
    {
      LeavesAt(m, r, start, frames, perms.LeafFlags(), k);
      assert Translations(s.phys, s.level)[r] == Leaves(s.phys, r);
    }
  }

  lemma ReleaseCounts(s: State, f: Frame)
    requires Inv(s)
    ensures 0 < Held(s, f) ==> 0 < Count(s, f)
    ensures 0 < Count(s, f) ==>
              (Inv(s.(refs := Minus(s.refs, f), holders := Minus(s.holders, f))) <==> 0 < Held(s, f))
  {
    assert AccountedAt(s, f);
    if 0 < Held(s, f) {
      ReleaseInv(s, f);
    } else if 0 < Count(s, f) {
      assert !AccountedAt(s.(refs := Minus(s.refs, f), holders := Minus(s.holders, f)), f);
    }
  }

  lemma BootInv(s: State)
    requires s.level == map[] && s.owner == map[] && s.holders == s.refs
    requires |s.kernel| == 512 && s.refs.Keys <= s.phys.Keys
    ensures Inv(s)
  {
    forall f
      ensures AccountedAt(s, f)
    {
      assert LeafSlots(s.phys, s.level, f) == {};
    }
  }

  lemma LeafCounted(s: State, r: Frame, pg: Page)
    requires Inv(s) && IsRoot(s, r) && UserPage(pg) && LeafOf(s.phys, r, pg).Used?
    ensures var f := LeafOf(s.phys, r, pg).frame; f in s.refs && f in s.phys && IsPageData(s.phys[f])
    ensures SlotOf(s.phys, r, pg).Some? && IsTableNow(s.phys, SlotOf(s.phys, r, pg).value)
  {
    SlotIsLeafSlot(s, r, pg);
    var at := SlotOf(s.phys, r, pg).value;
    LeafIsOk(s, at.table, at.index);
  }

  ghost predicate CanWrite(m: map<Frame, Space>, r: Frame, pg: Page) {
    r in m && pg in m[r] && m[r][pg].writable && m[r][pg].user && |m[r][pg].bytes| == 0x1000
  }

  /** A byte stored in one page of one space, every other byte of every space as before. */
  ghost function Written(m: map<Frame, Space>, r: Frame, pg: Page, offset: nat, value: bv8): map<Frame, Space>
    requires CanWrite(m, r, pg) && offset < 0x1000
  {
    m[r := m[r][pg := m[r][pg].(bytes := m[r][pg].bytes[offset := value])]]
  }

  lemma LeafShown(s: State, r: Frame, pg: Page)
    requires Inv(s) && IsRoot(s, r) && UserPage(pg)
    ensures r in Spaces(s.phys, s.level) && Spaces(s.phys, s.level)[r] == SpaceOf(s.phys, r)
    ensures pg in SpaceOf(s.phys, r) <==> LeafOf(s.phys, r, pg).Used?
    ensures LeafOf(s.phys, r, pg).Used? ==>
              && SpaceOf(s.phys, r)[pg] == PageView(s.phys, LeafOf(s.phys, r, pg))
              && |SpaceOf(s.phys, r)[pg].bytes| == 0x1000
  {
    if LeafOf(s.phys, r, pg).Used? {
      LeafCounted(s, r, pg);
    }
  }

  lemma StoreKeeps(s: State, r: Frame, pg: Page, c: Content)
    requires Inv(s) && IsRoot(s, r) && UserPage(pg) && LeafOf(s.phys, r, pg).Used?
    ensures KeepsPrivate(s, s.(phys := s.phys[LeafOf(s.phys, r, pg).frame := c]))
  {
    SlotIsLeafSlot(s, r, pg);
    var at := SlotOf(s.phys, r, pg).value;
    StoredKeeps(s, at.table, at.index, c);
  }

  lemma UpgradeKeeps(s: State, r: Frame, pg: Page, e: Entry)
    requires Inv(s) && IsRoot(s, r) && UserPage(pg) && LeafOf(s.phys, r, pg).Used?
    ensures var at := SlotOf(s.phys, r, pg).value;
            IsTableNow(s.phys, at) && KeepsPrivate(s, s.(phys := Put(s.phys, at.table, at.index, e)))
  {
    SlotIsLeafSlot(s, r, pg);
    var at := SlotOf(s.phys, r, pg).value;
    PutKeeps(s, at.table, at.index, e);
  }

  lemma StoreShown(s: State, r: Frame, pg: Page, offset: nat, value: bv8)
    requires Inv(s) && Nonempty(s, {}) && Attached(s, {}) && IsRoot(s, r) && UserPage(pg) && offset < 0x1000
    requires LeafOf(s.phys, r, pg).Used? && LeafOf(s.phys, r, pg).flags.writable && LeafOf(s.phys, r, pg).flags.user
    ensures var f := LeafOf(s.phys, r, pg).frame;
            && |Bytes(s.phys, f)| == 0x1000 && CanWrite(Spaces(s.phys, s.level), r, pg)
            && var b := s.(phys := s.phys[f := Data(Bytes(s.phys, f)[offset := value])]);
               && Inv(b) && Nonempty(b, {}) && Attached(b, {})
               && Spaces(b.phys, b.level) == Written(Spaces(s.phys, s.level), r, pg, offset, value)
  {
    LeafShown(s, r, pg);
    LeafCounted(s, r, pg);
    StoreStep(s, r, pg, Bytes(s.phys, LeafOf(s.phys, r, pg).frame)[offset := value]);
  }

  lemma LeavesPresent(s: State, r: Frame, pg: Page)
    requires Inv(s) && IsRoot(s, r) && UserPage(pg)
    ensures LeafOf(s.phys, r, pg).Used? ==> LeafOf(s.phys, r, pg).flags.present
  {
    if LeafOf(s.phys, r, pg).Used? {
      SlotIsLeafSlot(s, r, pg);
      var at := SlotOf(s.phys, r, pg).value;
      LeafIsOk(s, at.table, at.index);
    }
  }

  lemma MoveKeeps(s: State, r: Frame, src: Page, dst: Page)
    requires Inv(s) && IsRoot(s, r) && UserPage(src) && UserPage(dst)
    requires SlotOf(s.phys, r, src).Some? && SlotOf(s.phys, r, dst).Some?
    requires IsTableNow(s.phys, SlotOf(s.phys, r, src).value) && IsTableNow(s.phys, SlotOf(s.phys, r, dst).value)
    ensures KeepsPrivate(s, Moved(s, SlotOf(s.phys, r, src).value, SlotOf(s.phys, r, dst).value))
  {
    SlotIsLeafSlot(s, r, src);
    SlotIsLeafSlot(s, r, dst);
    MovedKeeps(s, SlotOf(s.phys, r, src).value, SlotOf(s.phys, r, dst).value);
  }

  lemma PageMovedFrom(s0: State, s: State, b: State, r: Frame, src: Page, dst: Page)
    requires SameViews(s0, s) && IsRoot(s0, r) && IsRoot(s, r) && UserPage(src)
    requires PageMoved(s, b, r, src, dst)
    ensures PageMoved(s0, b, r, src, dst)
  {
    SameLeafBack(s0, s, r, src);
    assert Translations(s.phys, s.level)[r] == Leaves(s.phys, r);
    assert Translations(s0.phys, s0.level)[r] == Leaves(s0.phys, r);
    assert Spaces(s.phys, s.level)[r] == SpaceOf(s.phys, r);
    assert Spaces(s0.phys, s0.level)[r] == SpaceOf(s0.phys, r);
    assert SpaceOf(s.phys, r)[src] == PageView(s.phys, LeafOf(s.phys, r, src));
    assert SpaceOf(s0.phys, r)[src] == PageView(s0.phys, LeafOf(s0.phys, r, src));
  }

  /** A walk that stops at an unused slot finds no leaf. */
  lemma NotMappedAbove(s: State, r: Frame, pg: Page, k: nat)
    requires UserPage(pg) && k < 3 && TableAt(s.phys, r, pg, k).Some?
    requires EntryAt(s.phys, TableAt(s.phys, r, pg, k).value, pg[k]).Unused?
    ensures TableAt(s.phys, r, pg, k + 1).None? && LeafOf(s.phys, r, pg).Unused?
  {
    NoTableBelow(s.phys, r, pg, k + 1, 3);
  }

  lemma SameLeafBack(s0: State, s: State, r: Frame, pg: Page)
    requires SameViews(s0, s) && IsRoot(s0, r) && IsRoot(s, r) && UserPage(pg)
    ensures LeafOf(s.phys, r, pg) == LeafOf(s0.phys, r, pg)
  {
    assert Translations(s.phys, s.level)[r] == Leaves(s.phys, r);
    assert Translations(s0.phys, s0.level)[r] == Leaves(s0.phys, r);
    assert pg in Leaves(s.phys, r) <==> LeafOf(s.phys, r, pg).Used?;
    assert pg in Leaves(s0.phys, r) <==> LeafOf(s0.phys, r, pg).Used?;
  }

  lemma ClimbLeaf(s0: State, s: State, r: Frame, pg: Page, d: nat)
    requires Climb(s0, s, r, pg, d) && IsRoot(s0, r) && UserPage(pg)
    ensures Inv(s) && IsRoot(s, r) && LeafOf(s.phys, r, pg) == LeafOf(s0.phys, r, pg)
  {
    hide Inv, Undoable, Nonempty, Attached;
    SameLeafBack(s0, s, r, pg);
  }

  lemma ClimbKeeps(s0: State, s: State, r: Frame, pg: Page, f: Frame, flags: Flags)
    requires Climb(s0, s, r, pg, 3) && UserPage(pg) && TableAt(s.phys, r, pg, 3).Some?
    ensures var t := TableAt(s.phys, r, pg, 3).value;
            && IsTable(s.phys, t) && pg[3] < 512
            && KeepsOthers(s0, s.(phys := Put(s.phys, t, pg[3], Used(f, flags)), holders := Minus(s.holders, f)), f)
  {
    hide KeepsPrivate, KeepsOthers, Undoable;
    var t := TableAt(s.phys, r, pg, 3).value;
    WalkLevel(s, r, pg, 3);
    QuietKeeps(s0, s);
    MappedKeeps(s, t, pg[3], f, flags);
    OthersAfter(s0, s, s.(phys := Put(s.phys, t, pg[3], Used(f, flags)), holders := Minus(s.holders, f)), f);
  }

  /** The last step of a mapping walk: the leaf itself. */
  lemma ClimbMap(s0: State, s: State, r: Frame, pg: Page, f: Frame, flags: Flags)
    requires Inv(s0) && Nonempty(s0, {}) && IsRoot(s0, r) && UserPage(pg) && Climb(s0, s, r, pg, 3)
    requires LeafOf(s.phys, r, pg).Unused? && 0 < Held(s0, f) && LeafOk(s0.phys, s0.level, s0.refs, Used(f, flags))
    ensures var t := TableAt(s.phys, r, pg, 3).value;
            && IsTable(s.phys, t) && pg[3] < 512
            && var b := s.(phys := Put(s.phys, t, pg[3], Used(f, flags)), holders := Minus(s.holders, f));
               && Inv(b) && Nonempty(b, {}) && Attached(b, {}) && PageSet(s0, b, r, pg, Used(f, flags))
               && MappedFrom(s0, b, r, pg, f) && Bytes(b.phys, f) == Bytes(s0.phys, f)
  {
    hide SameViews, PageSet, Restored;
    var t := TableAt(s.phys, r, pg, 3).value;
    WalkLevel(s, r, pg, 3);
    assert KeepsHeld(s0, s, f);
    MapLeafInv(s, t, pg[3], f, flags);
    var b := s.(phys := Put(s.phys, t, pg[3], Used(f, flags)), holders := Minus(s.holders, f));
    LeafViews(s, b, r, pg, Used(f, flags));
    LeafNonempty(s, b, t, pg[3], Used(f, flags), {t});
    assert {t} - {t} == {};
    PageSetFrom(s0, s, b, r, pg, Used(f, flags));
    ClearedMap(s, b, r, pg, f, flags);
    UndoablePruned(s0, s, r, pg, 3);
  }

  lemma ClearedMap(s: State, b: State, r: Frame, pg: Page, f: Frame, flags: Flags)
    requires UserPage(pg) && TableAt(s.phys, r, pg, 3).Some? && 0 < Held(s, f)
    requires var t := TableAt(s.phys, r, pg, 3).value;
             && IsTable(s.phys, t) && pg[3] < 512 && EntryAt(s.phys, t, pg[3]).Unused?
             && b == s.(phys := Put(s.phys, t, pg[3], Used(f, flags)), holders := Minus(s.holders, f))
    requires SlotOf(b.phys, r, pg) == SlotOf(s.phys, r, pg)
    ensures LeafOf(b.phys, r, pg) == Used(f, flags) && Cleared(b, SlotOf(b.phys, r, pg).value) == s
  {
    var t := TableAt(s.phys, r, pg, 3).value;
    var c := Cleared(b, Slot(t, pg[3]));
    assert c.phys[t].entries == s.phys[t].entries;
    assert c.phys == s.phys;
    assert c.holders == s.holders;
  }

  /** How deep the tables of a path go. */
  function Depth(phys: Memory, r: Frame, pg: Page): nat
    requires |pg| == 4
  {
    if TableAt(phys, r, pg, 3).Some? then 3
    else if TableAt(phys, r, pg, 2).Some? then 2
    else if TableAt(phys, r, pg, 1).Some? then 1
    else 0
  }

  lemma {:induction false} NoTableBelow(phys: Memory, r: Frame, pg: Page, d: nat, k: nat)
    requires |pg| == 4 && d <= k <= 3 && TableAt(phys, r, pg, d).None?
    ensures TableAt(phys, r, pg, k).None?
  {
    if d < k {
      NoTableBelow(phys, r, pg, d, k - 1);
    }
  }

  lemma DepthAtLeast(phys: Memory, r: Frame, pg: Page, d: nat)
    requires |pg| == 4 && d <= 3 && TableAt(phys, r, pg, d).Some?
    ensures d <= Depth(phys, r, pg)
  {
  }

  lemma DepthIs(phys: Memory, r: Frame, pg: Page, d: nat)
    requires |pg| == 4 && d <= 3 && TableAt(phys, r, pg, d).Some?
    requires d < 3 ==> TableAt(phys, r, pg, d + 1).None?
    ensures Depth(phys, r, pg) == d
  {
    if d < 3 {
      NoTableBelow(phys, r, pg, d + 1, 3);
      if d < 2 {
        NoTableBelow(phys, r, pg, d + 1, 2);
      }
    }
  }
}
