/**
 Frames that only an outside holder refers to, such as one a page-in is filling:
 every step of the mapper leaves them, their bytes and their counts alone.
 */
module PrivateFrames {
  import opened PageTables
  import opened PageSteps
  import opened PageWalk
  import opened PageEffects
  import opened PagePaths
  import opened CowSteps
  import opened DestroySteps

  /** All references of the frame are held outside the tables. */
  predicate Private(s: State, f: Frame) {
    0 < Held(s, f) && Count(s, f) == Held(s, f) && f in s.phys
  }

  ghost predicate KeptPrivate(s: State, b: State, f: Frame) {
    Private(s, f) ==> f in b.phys && b.phys[f] == s.phys[f] && Count(b, f) == Count(s, f) && Held(b, f) == Held(s, f)
  }

  ghost predicate KeepsPrivate(s: State, b: State) {
    forall f :: KeptPrivate(s, b, f)
  }

  /** All private frames but one are left alone. */
  ghost predicate KeepsOthers(s: State, b: State, x: Frame) {
    forall f | f != x :: KeptPrivate(s, b, f)
  }

  lemma KeepsTwice(s: State, b: State, e: State)
    requires KeepsPrivate(s, b) && KeepsPrivate(b, e)
    ensures KeepsPrivate(s, e)
  {
    forall f
      ensures KeptPrivate(s, e, f)
    {
      assert KeptPrivate(s, b, f) && KeptPrivate(b, e, f);
    }
  }

  lemma KeepsSelf(s: State)
    ensures KeepsPrivate(s, s)
  {
  }

  // --------------------------------------------------------------- what is not private

  lemma TableNotPrivate(s: State, t: Frame)
    requires Inv(s) && t in s.level
    ensures !Private(s, t)
  {
    assert AccountedAt(s, t);
  }

  lemma LeafNotPrivate(s: State, t: Frame, i: nat)
    requires Inv(s) && LeafSlotOf(s, t, i) && EntryAt(s.phys, t, i).Used?
    ensures !Private(s, EntryAt(s.phys, t, i).frame)
  {
    var f := EntryAt(s.phys, t, i).frame;
    assert AccountedAt(s, f);
    LeafSlotsMember(s.phys, s.level, f, Slot(t, i));
  }

  // ------------------------------------------------------------------------- steps

  lemma PrunedKeeps(s: State, f: Frame)
    requires Inv(s) && f in s.owner && TableEmpty(s.phys, f)
    ensures IsTable(s.phys, s.owner[f].table) && s.owner[f].index < 512 && KeepsPrivate(s, Pruned1(s, f))
  {
    PruneStep(s, f);
    OwnerSlot(s, f);
    TableNotPrivate(s, f);
    TableNotPrivate(s, s.owner[f].table);
  }

  lemma {:induction false} PrunePathKeeps(s: State, r: Frame, pg: Page, d: nat)
    requires Inv(s) && |pg| == 4 && d <= 3
    ensures KeepsPrivate(s, PrunePath(s, r, pg, d))
    decreases d
  {
    hide Inv, KeepsPrivate, Pruned1;
    if Prunable(s, r, pg, d) {
      var f := TableAt(s.phys, r, pg, d).value;
      PruneStep(s, f);
      PrunedKeeps(s, f);
      PrunePathKeeps(Pruned1(s, f), r, pg, d - 1);
      KeepsTwice(s, Pruned1(s, f), PrunePath(s, r, pg, d));
    } else {
      KeepsSelf(s);
    }
  }

  lemma DroppedKeeps(s: State, t: Frame, i: nat)
    requires Inv(s) && LeafSlotOf(s, t, i) && EntryAt(s.phys, t, i).Used?
    ensures KeepsPrivate(s, Dropped(Cleared(s, Slot(t, i)), EntryAt(s.phys, t, i).frame))
  {
    TableNotPrivate(s, t);
    LeafNotPrivate(s, t, i);
  }

  lemma UnmappedKeeps(s: State, r: Frame, pg: Page)
    requires Inv(s) && IsRoot(s, r) && UserPage(pg)
    ensures KeepsPrivate(s, Unmapped(s, r, pg))
  {
    hide KeepsPrivate, PrunePath;
    KeepsSelf(s);
    if LeafOf(s.phys, r, pg).Used? {
      var at, f := SlotOf(s.phys, r, pg).value, LeafOf(s.phys, r, pg).frame;
      SlotIsLeafSlot(s, r, pg);
      DroppedKeeps(s, at.table, at.index);
      ClearedInv(s, r, pg);
      ReleaseInv(Cleared(s, at), f);
      var d := Dropped(Cleared(s, at), f);
      PrunePathKeeps(d, r, pg, 3);
      KeepsTwice(s, d, Unmapped(s, r, pg));
    }
  }

  lemma MovedKeeps(s: State, src: Slot, dst: Slot)
    requires Inv(s) && src.table in s.level && dst.table in s.level && IsTableNow(s.phys, src)
            && IsTableNow(s.phys, dst)
    ensures KeepsPrivate(s, Moved(s, src, dst))
  {
    TableNotPrivate(s, src.table);
    TableNotPrivate(s, dst.table);
  }

  lemma QuietKeeps(s0: State, s: State)
    requires Quiet(s0, s)
    ensures KeepsPrivate(s0, s)
  {
    forall f
      ensures KeptPrivate(s0, s, f)
    {
      assert KeepsHeld(s0, s, f);
    }
  }

  lemma RestoredKeeps(s0: State, s: State)
    requires Restored(s0, s)
    ensures KeepsPrivate(s0, s)
  {
  }

  /** Mapping a held frame takes it from its holder. */
  lemma MappedKeeps(s: State, t: Frame, i: nat, f: Frame, flags: Flags)
    requires Inv(s) && t in s.level && IsTable(s.phys, t) && i < 512
    ensures KeepsOthers(s, s.(phys := Put(s.phys, t, i, Used(f, flags)), holders := Minus(s.holders, f)), f)
  {
    TableNotPrivate(s, t);
  }

  lemma OthersAfter(s: State, b: State, e: State, x: Frame)
    requires KeepsPrivate(s, b) && KeepsOthers(b, e, x)
    ensures KeepsOthers(s, e, x)
  {
    forall f | f != x
      ensures KeptPrivate(s, e, f)
    {
      assert KeptPrivate(s, b, f) && KeptPrivate(b, e, f);
    }
  }

  lemma StagedKeeps(s: State, f: Frame, bytes: seq<bv8>)
    requires Count(s, f) == 0
    ensures KeepsPrivate(s, Staged(s, f, bytes))
  {
  }

  /** A frame that was free, held for a while and then mapped. */
  lemma FreshMapped(s: State, a: State, b: State, f: Frame)
    requires Count(s, f) == 0 && KeepsPrivate(s, a) && KeepsOthers(a, b, f)
    ensures KeepsPrivate(s, b)
  {
    forall g
      ensures KeptPrivate(s, b, g)
    {
      assert KeptPrivate(s, a, g) && (g != f ==> KeptPrivate(a, b, g));
    }
  }

  lemma PutKeeps(s: State, t: Frame, i: nat, e: Entry)
    requires Inv(s) && t in s.level && IsTable(s.phys, t) && i < 512
    ensures KeepsPrivate(s, s.(phys := Put(s.phys, t, i, e)))
  {
    TableNotPrivate(s, t);
  }

  lemma CopiedKeeps(s: State, at: Slot, f: Frame)
    requires Inv(s) && LeafSlotOf(s, at.table, at.index) && IsTableNow(s.phys, at)
    requires EntryAt(s.phys, at.table, at.index).Used? && EntryAt(s.phys, at.table, at.index).frame in s.phys
    requires f != at.table && Count(s, f) == 0
    ensures KeepsPrivate(s, CowCopied(s, at, f))
  {
    TableNotPrivate(s, at.table);
    LeafNotPrivate(s, at.table, at.index);
  }

  lemma StoredKeeps(s: State, t: Frame, i: nat, c: Content)
    requires Inv(s) && LeafSlotOf(s, t, i) && EntryAt(s.phys, t, i).Used?
    ensures KeepsPrivate(s, s.(phys := s.phys[EntryAt(s.phys, t, i).frame := c]))
  {
    LeafNotPrivate(s, t, i);
  }

  lemma LinkedKeeps(s: State, p: Frame, i: nat, f: Frame, flags: Flags)
    requires Inv(s) && IsTable(s.phys, p) && i < 512 && p in s.level && 0 < s.level[p] && f != p && Count(s, f) == 0
    ensures KeepsPrivate(s, Link(s.(refs := s.refs[f := 1], holders := s.holders[f := 1]), p, i, f, flags))
  {
    TableNotPrivate(s, p);
  }

  lemma RootKeeps(s: State, f: Frame)
    requires |s.kernel| == 512 && Count(s, f) == 0
    ensures KeepsPrivate(s, AddRoot(s.(refs := s.refs[f := 1], holders := s.holders[f := 1]), f))
  {
  }

  /** Taking apart a tree removes leaves and tables, and touches no frame that is neither. */
  lemma DestroyedKeeps(s: State, b: State, t: Frame, gone: set<Frame>)
    requires Inv(s) && Inv(b) && t in s.level && Destroyed(s, b, t, gone)
    ensures KeepsPrivate(s, b)
  {
    hide Inv;
    forall f | Private(s, f)
      ensures KeptPrivate(s, b, f)
    {
      DestroyedKept(s, b, t, gone, f);
    }
  }

  lemma DestroyedKept(s: State, b: State, t: Frame, gone: set<Frame>, f: Frame)
    requires Inv(s) && Inv(b) && t in s.level && Destroyed(s, b, t, gone) && Private(s, f)
    ensures KeptPrivate(s, b, f)
  {
    assert AccountedAt(s, f) && AccountedAt(b, f) && GoneAt(s, t, gone, f);
    if f in s.owner {
      OwnedTable(s, f);
    }
    forall slot
      ensures slot !in LeafSlots(b.phys, b.level, f)
    {
      LeafSlotsMember(s.phys, s.level, f, slot);
      LeafSlotsMember(b.phys, b.level, f, slot);
    }
    assert LeafSlots(b.phys, b.level, f) == {};
  }
}
