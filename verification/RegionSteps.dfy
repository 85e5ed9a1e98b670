/** Mapping a run of consecutive pages, and unwinding it page by page on failure. */
module RegionSteps {
  import opened PageTables
  import opened PageSteps
  import opened SpaceView
  import opened PageEffects
  import opened PagePaths
  import opened CowSteps
  import opened UserRange

  ghost predicate Stable(s: State) {
    Inv(s) && Nonempty(s, {}) && Attached(s, {})
  }

  function PageOf(start: nat, k: nat): Page {
    PageIndices(PageAddress(start, k))
  }

  /** The first `k` pages of a region unmapped, last page first. */
  ghost function Unwound(s: State, r: Frame, start: nat, k: nat): State
    decreases k
  {
    if k == 0 then s else Unwound(Unmapped(s, r, PageOf(start, k - 1)), r, start, k - 1)
  }

  lemma UnmappedStable(s: State, r: Frame, pg: Page)
    requires Stable(s) && IsRoot(s, r) && UserPage(pg)
    ensures Stable(Unmapped(s, r, pg)) && IsRoot(Unmapped(s, r, pg), r)
  {
    if LeafOf(s.phys, r, pg).Used? {
      UnmappedOk(s, r, pg);
    }
  }

  /** Unwinding cannot tell restored states apart. */
  lemma {:induction false} UnwoundRespects(a: State, b: State, r: Frame, start: nat, k: nat)
    requires Stable(a) && Restored(a, b) && IsRoot(a, r)
    requires forall j | 0 <= j < k :: UserPage(PageOf(start, j))
    ensures Restored(Unwound(a, r, start, k), Unwound(b, r, start, k))
    decreases k
  {
    hide Inv, Nonempty, Attached, Restored, Unmapped;
    if 0 < k {
      var pg := PageOf(start, k - 1);
      UnmappedStable(a, r, pg);
      UnmapRespects(a, b, r, pg);
      UnwoundRespects(Unmapped(a, r, pg), Unmapped(b, r, pg), r, start, k - 1);
    }
  }

  /** A frame taken, filled and given back leaves everything but its contents. */
  lemma StageDropped(s: State, f: Frame, bytes: seq<bv8>)
    requires Accounted(s) && f in s.refs && Count(s, f) == 0 && f in s.phys
    ensures Restored(s, Dropped(Staged(s, f, bytes), f)) && Minus(Staged(s, f, bytes).holders, f) == s.holders
  {
    assert AccountedAt(s, f);
    var d := Dropped(Staged(s, f, bytes), f);
    assert d.refs == s.refs && d.holders == s.holders;
  }

  /** One more page mapped can still be unwound to the start. */
  lemma UnwindOneMore(s0: State, s: State, b: State, r: Frame, start: nat, k: nat, f: Frame, bytes: seq<bv8>)
    requires Stable(s) && IsRoot(s, r) && f in s.refs && Count(s, f) == 0 && |bytes| == 0x1000
    requires Stable(b) && IsRoot(b, r)
    requires forall j | 0 <= j <= k :: UserPage(PageOf(start, j))
    requires Restored(s0, Unwound(s, r, start, k)) && MappedFrom(Staged(s, f, bytes), b, r, PageOf(start, k), f)
    ensures Restored(s0, Unwound(b, r, start, k + 1)) && Minus(Staged(s, f, bytes).holders, f) == s.holders
  {
    var pg := PageOf(start, k);
    CowStage(s, f, bytes);
    StageDropped(s, f, bytes);
    UnmapUndoesMap(Staged(s, f, bytes), b, r, pg, f);
    RestoredTransitive(s, Dropped(Staged(s, f, bytes), f), Unmapped(b, r, pg));
    UnwoundRespects(s, Unmapped(b, r, pg), r, start, k);
    RestoredTransitive(s0, Unwound(s, r, start, k), Unwound(Unmapped(b, r, pg), r, start, k));
  }

  /** A failed page, its frame released and its path pruned, leaves the pages before it. */
  lemma FailedPage(s: State, c: State, r: Frame, pg: Page, d: nat, f: Frame, bytes: seq<bv8>)
    requires Stable(s) && IsRoot(s, r) && UserPage(pg) && f in s.refs && Count(s, f) == 0 && |bytes| == 0x1000
    requires d <= 3 && Climb(Staged(s, f, bytes), c, r, pg, d)
    ensures Inv(c) && IsRoot(c, r) && 0 < Held(c, f)
    ensures Restored(s, PrunePath(Dropped(c, f), r, pg, d))
  {
    var a := Staged(s, f, bytes);
    CowStage(s, f, bytes);
    StageDropped(s, f, bytes);
    UndoablePruned(a, c, r, pg, d);
    PruneDropped(c, f, r, pg, d);
    DroppedRespects(a, PrunePath(c, r, pg, d), f);
    RestoredTransitive(s, Dropped(a, f), Dropped(PrunePath(c, r, pg, d), f));
  }

  lemma RestoredStable(a: State, b: State)
    requires Stable(a) && Restored(a, b) && Inv(b)
    ensures Stable(b)
  {
    RestoredViews(a, b);
  }

  /** What programs see once the first `k` pages of a region are mapped and zeroed. */
  ghost function WithZeroPages(m: map<Frame, Space>, r: Frame, start: nat, k: nat,
      view: UserPageView): (n: map<Frame, Space>)
    requires r in m
    ensures n.Keys == m.Keys
  {
    if k == 0 then m else
      var n := WithZeroPages(m, r, start, k - 1, view);
      n[r := n[r][PageOf(start, k - 1) := view]]
  }

  ghost predicate InRegion(start: nat, k: nat, pg: Page) {
    exists j :: 0 <= j < k && pg == PageOf(start, j)
  }

  lemma InRegionStep(start: nat, k: nat, pg: Page)
    ensures InRegion(start, k + 1, pg) <==> InRegion(start, k, pg) || pg == PageOf(start, k)
  {
    if InRegion(start, k + 1, pg) {
      var j :| 0 <= j < k + 1 && pg == PageOf(start, j);
    }
  }

  lemma EmptyRegion(start: nat, pg: Page)
    ensures !InRegion(start, 0, pg)
  {
  }

  /** Inside the region the new page shows, outside it nothing changed. */
  lemma {:induction false} ZeroPagesAt(m: map<Frame, Space>, r: Frame, start: nat, k: nat, view: UserPageView, pg: Page)
    requires r in m
    ensures var n := WithZeroPages(m, r, start, k, view);
            if InRegion(start, k, pg) then pg in n[r] && n[r][pg] == view
            else (pg in n[r] <==> pg in m[r]) && (pg in m[r] ==> n[r][pg] == m[r][pg])
  {
    hide PageOf, InRegion;
    if 0 < k {
      ZeroPagesAt(m, r, start, k - 1, view, pg);
      InRegionStep(start, k - 1, pg);
    } else {
      EmptyRegion(start, pg);
    }
  }

  /** Other spaces are left alone. */
  lemma {:induction false} ZeroPagesElsewhere(m: map<Frame, Space>, r: Frame, start: nat, k: nat, view: UserPageView,
      q: Frame)
    requires r in m && q in m && q != r
    ensures WithZeroPages(m, r, start, k, view)[q] == m[q]
  {
    if 0 < k {
      ZeroPagesElsewhere(m, r, start, k - 1, view, q);
    }
  }

  /** The leaf maps once the first `|frames|` pages of a region are mapped. */
  ghost function WithLeaves(m: map<Frame, imap<Page, Entry>>, r: Frame, start: nat, frames: seq<Frame>, flags: Flags)
    : (n: map<Frame, imap<Page, Entry>>)
    requires r in m
    ensures n.Keys == m.Keys
    decreases |frames|
  {
    if frames == [] then m else
      var k := |frames| - 1;
      var n := WithLeaves(m, r, start, frames[..k], flags);
      n[r := n[r][PageOf(start, k) := Used(frames[k], flags)]]
  }

  lemma OtherPage(start: nat, j: nat, k: nat)
    requires start % 0x1000 == 0 && j < k && PageAddress(start, k) < USER_VA_RANGE_END
    ensures PageOf(start, j) != PageOf(start, k)
  {
    hide PageIndices;
    if PageOf(start, j) == PageOf(start, k) {
      PagesDistinct(start, j, k);
    }
  }

  /** Each page of the region has its own frame and the flags asked for. */
  lemma {:induction false} LeavesAt(m: map<Frame, imap<Page, Entry>>, r: Frame, start: nat, frames: seq<Frame>,
                                    flags: Flags, k: nat)
    requires r in m && k < |frames| && start % 0x1000 == 0 && PageAddress(start, |frames|) <= USER_VA_RANGE_END
    ensures var n := WithLeaves(m, r, start, frames, flags);
            PageOf(start, k) in n[r] && n[r][PageOf(start, k)] == Used(frames[k], flags)
    decreases |frames|
  {
    hide PageOf;
    var last := |frames| - 1;
    if k < last {
      OtherPage(start, k, last);
      LeavesAt(m, r, start, frames[..last], flags, k);
      assert frames[..last][k] == frames[k];
    }
  }

  /** Both views after `|frames|` pages. */
  ghost predicate RegionMapped(s0: State, s: State, r: Frame, start: nat, frames: seq<Frame>, flags: Flags,
      view: UserPageView) {
    && IsRoot(s0, r)
    && Translations(s.phys, s.level) == WithLeaves(Translations(s0.phys, s0.level), r, start, frames, flags)
    && Spaces(s.phys, s.level) == WithZeroPages(Spaces(s0.phys, s0.level), r, start, |frames|, view)
  }

  /** Everything the mapping loop keeps: what is mapped so far, and that it can be unwound. */
  ghost predicate RegionState(s0: State, s: State, r: Frame, start: nat, frames: seq<Frame>, flags: Flags,
      view: UserPageView) {
    && Stable(s) && IsRoot(s, r) && s.holders == s0.holders
    && RegionMapped(s0, s, r, start, frames, flags, view) && Restored(s0, Unwound(s, r, start, |frames|))
    && Vacant(s0.phys, r, start, |frames|)
  }

  /** None of the first `k` pages is mapped. */
  ghost predicate Vacant(phys: Memory, r: Frame, start: nat, k: nat) {
    forall j | 0 <= j < k :: LeafOf(phys, r, PageOf(start, j)).Unused?
  }

  lemma RegionStart(s: State, r: Frame, start: nat, flags: Flags, view: UserPageView)
    requires Stable(s) && IsRoot(s, r)
    ensures RegionState(s, s, r, start, [], flags, view)
  {
    hide Inv, Nonempty, Attached, Translations, Spaces;
  }

  /** The page before was not mapped, is now, and the whole can still be unwound. */
  lemma RegionNext(s0: State, s: State, a: State, b: State, r: Frame, start: nat, frames: seq<Frame>, flags: Flags,
                   view: UserPageView, f: Frame, bytes: seq<bv8>)
    requires RegionState(s0, s, r, start, frames, flags, view) && SameViews(s, a) && a == Staged(s, f, bytes)
    requires f in s.refs && Count(s, f) == 0 && |bytes| == 0x1000
    requires forall j | 0 <= j <= |frames| :: UserPage(PageOf(start, j))
    requires Stable(b) && IsRoot(b, r) && b.holders == Minus(a.holders, f)
            && MappedFrom(a, b, r, PageOf(start, |frames|), f)
    requires PageSet(a, b, r, PageOf(start, |frames|), Used(f, flags)) && PageView(b.phys, Used(f, flags)) == view
    requires LeafOf(s0.phys, r, PageOf(start, |frames|)).Unused?
    ensures RegionState(s0, b, r, start, frames + [f], flags, view)
  {
    hide PageSet, SameViews, RegionMapped, Unwound, MappedFrom, Restored, Inv, Nonempty, Attached;
    UnwindOneMore(s0, s, b, r, start, |frames|, f, bytes);
    RegionMappedOne(s0, s, a, b, r, start, frames, flags, view, f);
  }

  lemma RegionMappedOne(s0: State, s: State, a: State, b: State, r: Frame, start: nat, frames: seq<Frame>, flags: Flags,
                        view: UserPageView, f: Frame)
    requires RegionMapped(s0, s, r, start, frames, flags, view) && SameViews(s, a)
    requires PageSet(a, b, r, PageOf(start, |frames|), Used(f, flags)) && PageView(b.phys, Used(f, flags)) == view
    ensures RegionMapped(s0, b, r, start, frames + [f], flags, view)
  {
    assert (frames + [f])[..|frames|] == frames;
    assert Translations(a.phys, a.level)[r] == Leaves(a.phys, r);
    assert Spaces(a.phys, a.level)[r] == SpaceOf(a.phys, r);
  }

  /** The next page of the region is still as it was. */
  lemma NextPageUntouched(s0: State, s: State, r: Frame, start: nat, frames: seq<Frame>, flags: Flags,
      view: UserPageView)
    requires RegionMapped(s0, s, r, start, frames, flags, view) && UserPage(PageOf(start, |frames|)) && IsRoot(s, r)
    requires start % 0x1000 == 0 && PageAddress(start, |frames|) < USER_VA_RANGE_END
    ensures LeafOf(s0.phys, r, PageOf(start, |frames|)).Used? <==> LeafOf(s.phys, r, PageOf(start, |frames|)).Used?
  {
    var pg := PageOf(start, |frames|);
    if InRegion(start, |frames|, pg) {
      var j :| 0 <= j < |frames| && pg == PageOf(start, j);
      PagesDistinct(start, j, |frames|);
    }
    ZeroPagesAt(Spaces(s0.phys, s0.level), r, start, |frames|, view, pg);
    assert Spaces(s.phys, s.level)[r] == SpaceOf(s.phys, r) && Spaces(s0.phys, s0.level)[r] == SpaceOf(s0.phys, r);
    assert LeafOf(s.phys, r, pg).Used? <==> pg in SpaceOf(s.phys, r);
    assert LeafOf(s0.phys, r, pg).Used? <==> pg in SpaceOf(s0.phys, r);
  }
}
