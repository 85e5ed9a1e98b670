/** What a finished fork, and an abandoned one, look like to programs and to the allocator. */
module ForkViews {
  import opened Base
  import opened PageTables
  import opened PageSteps
  import opened PageWalk
  import opened SpaceView
  import opened PageEffects
  import opened PagePaths
  import opened DestroySteps
  import opened CloneSteps

  // ---------------------------------------------------------------- a new root

  /** A free frame allocated as an empty address space. */
  function RootAdded(s: State, f: Frame): State
    requires |s.kernel| == 512
  {
    AddRoot(s.(refs := s.refs[f := 1], holders := s.holders[f := 1]), f)
  }

  lemma RootAddedInv(s: State, f: Frame)
    requires Inv(s) && f in s.refs && Count(s, f) == 0
    ensures |s.kernel| == 512 && f !in s.level && Inv(RootAdded(s, f)) && NoUserEntries(RootAdded(s, f).phys, f)
    ensures RootAdded(s, f).holders == s.holders && f !in s.owner
  {
    assert AccountedAt(s, f) && UpAt(s.phys, s.level, s.owner, f);
    AllocateInv(s, f);
    AddRootInv(s.(refs := s.refs[f := 1], holders := s.holders[f := 1]), f);
  }

  lemma RootAddedShape(s: State, f: Frame)
    requires Inv(s) && |s.kernel| == 512 && f !in s.level && Nonempty(s, {}) && Attached(s, {})
    ensures Nonempty(RootAdded(s, f), {}) && Attached(RootAdded(s, f), {})
  {
    var b := RootAdded(s, f);
    forall t | t in b.owner
      ensures !TableEmpty(b.phys, t)
    {
      OwnedTable(s, t);
      SameEmptiness(s.phys, b.phys, t);
    }
  }

  /** The old spaces are as before. */
  lemma RootAddedOld(s: State, f: Frame, q: Frame)
    requires Inv(s) && |s.kernel| == 512 && f in s.refs && Count(s, f) == 0 && f !in s.level && IsRoot(s, q)
    ensures SpaceOf(RootAdded(s, f).phys, q) == SpaceOf(s.phys, q)
    ensures Leaves(RootAdded(s, f).phys, q) == Leaves(s.phys, q)
  {
    var b := RootAdded(s, f);
    assert AccountedAt(s, f);
    OnlyHeld(s, f);
    DataTranslation(s, b);
    SameLeavesOf(s, b, q);
    forall slot
      ensures DataAt(s, b, slot)
    {
      assert !Names(s.phys, s.level, slot, f);
    }
    forall pg
      ensures SameLeaf(s, b, q, pg)
    {
    }
    SameSpaceOf(s, b, q);
  }

  /** The new space is empty. */
  lemma EmptyRoot(phys: Memory, f: Frame)
    requires NoUserEntries(phys, f)
    ensures SpaceOf(phys, f) == imap[] && Leaves(phys, f) == imap[]
  {
    forall pg | UserPage(pg)
      ensures LeafOf(phys, f, pg).Unused?
    {
      assert TableAt(phys, f, pg, 0) == Some(f);
      assert TableAt(phys, f, pg, 1).None?;
      NoWalkBelow(phys, f, pg, 1, 3);
    }
  }

  lemma RootAddedViews(s: State, f: Frame)
    requires Inv(s) && f in s.refs && Count(s, f) == 0
    ensures |s.kernel| == 512 && f !in s.level
    ensures var b := RootAdded(s, f);
            && Spaces(b.phys, b.level) == Spaces(s.phys, s.level)[f := imap[]]
            && Translations(b.phys, b.level) == Translations(s.phys, s.level)[f := imap[]]
  {
    RootAddedInv(s, f);
    var b := RootAdded(s, f);
    EmptyRoot(b.phys, f);
    forall q | q in s.level && s.level[q] == 4
      ensures SpaceOf(b.phys, q) == SpaceOf(s.phys, q) && Leaves(b.phys, q) == Leaves(s.phys, q)
    {
      RootAddedOld(s, f, q);
    }
    SpacesWith(s.phys, s.level, b.phys, f);
  }

  lemma SpacesWith(x: Memory, l: map<Frame, nat>, y: Memory, f: Frame)
    requires f !in l && forall q | q in l && l[q] == 4 :: SpaceOf(y, q) == SpaceOf(x, q) && Leaves(y, q) == Leaves(x, q)
    requires SpaceOf(y, f) == imap[] && Leaves(y, f) == imap[]
    ensures Spaces(y, l[f := 4]) == Spaces(x, l)[f := imap[]]
    ensures Translations(y, l[f := 4]) == Translations(x, l)[f := imap[]]
  {
    hide SpaceOf, Leaves;
    var a, b := Spaces(y, l[f := 4]), Spaces(x, l)[f := imap[]];
    forall q | q in a
      ensures q in b && a[q] == b[q]
    {
    }
    TranslationsWith(x, l, y, f);
  }

  lemma TranslationsWith(x: Memory, l: map<Frame, nat>, y: Memory, f: Frame)
    requires f !in l && (forall q | q in l && l[q] == 4 :: Leaves(y, q) == Leaves(x, q)) && Leaves(y, f) == imap[]
    ensures Translations(y, l[f := 4]) == Translations(x, l)[f := imap[]]
  {
    hide Leaves;
    var a, b := Translations(y, l[f := 4]), Translations(x, l)[f := imap[]];
    forall q | q in a
      ensures q in b && a[q] == b[q]
    {
    }
  }

  // ------------------------------------------------------------- what a fork shows

  /** A leaf marked copy-on-write shows the same page. */
  lemma MarkShowsSame(s: State, b: State, y: Frame, q: Frame, pg: Page, e: Entry)
    requires Inv(s) && Cloning(s, b, y) && IsRoot(s, q) && UserPage(pg) && SoftEntry(LeafOf(s.phys, q, pg), e)
    ensures ViewOf(b.phys, e) == ViewOf(s.phys, LeafOf(s.phys, q, pg))
  {
    if LeafOf(s.phys, q, pg).Used? {
      SlotIsLeafSlot(s, q, pg);
      var at := SlotOf(s.phys, q, pg).value;
      LeafIsOk(s, at.table, at.index);
      LeafLive(s, at);
      assert KeptAt(s, b, y, LeafOf(s.phys, q, pg).frame);
    }
  }

  lemma SoftSpace(s: State, b: State, p: Frame, c: Frame, y: Frame, q: Frame)
    requires Inv(s) && Cloning(s, b, y) && Softened(s, b, p, c) && IsRoot(s, q) && q != c
    ensures SpaceOf(b.phys, q) == SpaceOf(s.phys, q)
  {
    forall pg | UserPage(pg)
      ensures ViewOf(b.phys, LeafOf(b.phys, q, pg)) == ViewOf(s.phys, LeafOf(s.phys, q, pg))
    {
      assert SoftAt(s, b, p, c, q, pg);
      MarkShowsSame(s, b, y, q, pg, LeafOf(b.phys, q, pg));
    }
    SameViewsSameSpace(s.phys, b.phys, q);
  }

  /** Finished or not, the spaces other than the child's are untouched. */
  lemma ForkLeavesOthers(s: State, b: State, p: Frame, c: Frame)
    requires Inv(s) && IsRoot(s, c) && Cloning(s, b, c) && Softened(s, b, p, c)
    ensures Spaces(b.phys, b.level) == Spaces(s.phys, s.level)[c := SpaceOf(b.phys, c)]
  {
    RootsKept(s, b, c);
    SameRootKeys(s, b);
    forall q | IsRoot(s, q) && q != c
      ensures SpaceOf(b.phys, q) == SpaceOf(s.phys, q)
    {
      SoftSpace(s, b, p, c, c, q);
    }
    SpacesUpdate(s.phys, s.level, b.phys, b.level, c);
  }

  /** The child of a finished fork shows every page of the parent. */
  lemma ForkedSpace(s: State, b: State, p: Frame, c: Frame)
    requires Inv(s) && IsRoot(s, p) && IsRoot(s, c) && Cloning(s, b, c) && ClonedTo(s, b, p, c, [], 512)
    ensures SpaceOf(b.phys, c) == SpaceOf(s.phys, p)
  {
    forall pg | UserPage(pg)
      ensures ViewOf(b.phys, LeafOf(b.phys, c, pg)) == ViewOf(s.phys, LeafOf(s.phys, p, pg))
    {
      assert ClonedAt(s, b, p, c, [], 512, c, pg);
      assert Under([], 512, pg);
      MarkShowsSame(s, b, c, p, pg, LeafOf(b.phys, c, pg));
    }
    SpacesAlike(b.phys, c, s.phys, p);
  }

  lemma SpacesAlike(x: Memory, q: Frame, y: Memory, r: Frame)
    requires forall pg | UserPage(pg) :: ViewOf(x, LeafOf(x, q, pg)) == ViewOf(y, LeafOf(y, r, pg))
    ensures SpaceOf(x, q) == SpaceOf(y, r)
  {
  }

  /** Fork as an eager copy would do it. */
  lemma ForkedViews(s: State, b: State, p: Frame, c: Frame)
    requires Inv(s) && IsRoot(s, p) && IsRoot(s, c) && p != c && Cloning(s, b, c) && ClonedTo(s, b, p, c, [], 512)
    ensures Spaces(b.phys, b.level) == Spaces(s.phys, s.level)[c := SpaceOf(s.phys, p)]
  {
    ClonedSoft(s, b, p, c, [], 512);
    ForkLeavesOthers(s, b, p, c);
    ForkedSpace(s, b, p, c);
  }

  // ------------------------------------------------------------ an abandoned fork

  /** A table from before the fork is not below the child. */
  lemma {:induction false} OldStays(s: State, b: State, c: Frame, gone: set<Frame>, t: Frame)
    requires Inv(s) && c !in s.level && t in s.level && (forall g :: GoneAt(b, c, gone, g))
    requires forall u | u in s.level :: (u in b.owner <==> u in s.owner) && (u in s.owner ==> b.owner[u] == s.owner[u])
    ensures t !in gone && t != c
    decreases 4 - s.level[t]
  {
    assert GoneAt(b, c, gone, t) && UpAt(s.phys, s.level, s.owner, t);
    if t in gone {
      OldStays(s, b, c, gone, s.owner[t].table);
    }
  }

  /** A table made by the fork is below the child, so what remains was there before. */
  lemma {:induction false} MadeGoes(s: State, b: State, d: State, c: Frame, gone: set<Frame>, t: Frame)
    requires Cloning(s, b, c) && Destroyed(b, d, c, gone) && UpOk(d.phys, d.level, d.owner) && TablesOk(d.phys, d.level)
    requires c in s.level && t in d.level
    ensures t in s.level
    decreases 4 - d.level[t]
  {
    assert KeptAt(s, b, c, t) && UpAt(d.phys, d.level, d.owner, t);
    if t !in s.level {
      MadeGoes(s, b, d, c, gone, d.owner[t].table);
    }
  }

  /** The tables are again those of before, in the same places. */
  lemma AbandonedTables(s: State, s1: State, b: State, d: State, c: Frame, gone: set<Frame>)
    requires Inv(s) && |s.kernel| == 512 && c !in s.level && c !in s.owner && s1 == RootAdded(s, c)
    requires Cloning(s1, b, c) && Destroyed(b, d, c, gone) && Inv(d)
    ensures d.level == s.level && d.owner == s.owner
  {
    forall t
      ensures t in s.level ==> t in d.level && d.level[t] == s.level[t]
      ensures t in d.level ==> t in s.level
      ensures t in s.level ==> (t in d.owner <==> t in s.owner) && (t in s.owner ==> d.owner[t] == s.owner[t])
    {
      assert KeptAt(s1, b, c, t);
      if t in s.level {
        AbandonedOld(s, s1, b, c, gone, t);
      } else if t in d.level {
        MadeGoes(s1, b, d, c, gone, t);
      }
    }
    forall t
      ensures t in s.owner ==> t in s.level
      ensures t in d.owner ==> t in d.level
    {
      assert UpAt(s.phys, s.level, s.owner, t) && UpAt(d.phys, d.level, d.owner, t);
    }
  }

  lemma AbandonedOld(s: State, s1: State, b: State, c: Frame, gone: set<Frame>, t: Frame)
    requires Inv(s) && |s.kernel| == 512 && c !in s.level && c !in s.owner && s1 == RootAdded(s, c)
    requires Cloning(s1, b, c) && (forall g :: GoneAt(b, c, gone, g)) && t in s.level
    ensures t !in gone && t != c
  {
    forall u | u in s.level
      ensures (u in b.owner <==> u in s.owner) && (u in s.owner ==> b.owner[u] == s.owner[u])
    {
      assert KeptAt(s1, b, c, u);
    }
    OldStays(s, b, c, gone, t);
  }

  /** Leaves are as before, or marked. */
  lemma AbandonedLeaf(s: State, s1: State, b: State, d: State, c: Frame, gone: set<Frame>, slot: Slot)
    requires Inv(s) && |s.kernel| == 512 && c !in s.level && c !in s.owner && s1 == RootAdded(s, c)
    requires Cloning(s1, b, c) && Destroyed(b, d, c, gone) && Inv(d) && d.level == s.level
    ensures SoftEntry(LeafEntry(s.phys, s.level, slot), LeafEntry(d.phys, d.level, slot))
  {
    if slot.table in s.level && s.level[slot.table] == 1 {
      AbandonedOld(s, s1, b, c, gone, slot.table);
      assert KeptAt(s1, b, c, slot.table);
      assert EntryAt(d.phys, slot.table, slot.index) == EntryAt(b.phys, slot.table, slot.index);
      assert EntryAt(s1.phys, slot.table, slot.index) == EntryAt(s.phys, slot.table, slot.index);
      assert SoftEntry(EntryAt(s1.phys, slot.table, slot.index), EntryAt(b.phys, slot.table, slot.index));
    }
  }

  /** Equal tables, holders and named frames: equal refcounts. */
  lemma SameCounts(s: State, d: State)
    requires Accounted(s) && Accounted(d) && d.level == s.level && d.holders == s.holders
    requires forall slot :: SoftEntry(LeafEntry(s.phys, s.level, slot), LeafEntry(d.phys, d.level, slot))
    ensures d.refs == s.refs
  {
    forall f
      ensures f in d.refs <==> f in s.refs
      ensures f in s.refs ==> d.refs[f] == s.refs[f]
    {
      assert AccountedAt(s, f) && AccountedAt(d, f);
      forall slot
        ensures slot in LeafSlots(s.phys, s.level, f) <==> slot in LeafSlots(d.phys, d.level, f)
      {
        LeafSlotsMember(s.phys, s.level, f, slot);
        LeafSlotsMember(d.phys, d.level, f, slot);
        assert SoftEntry(LeafEntry(s.phys, s.level, slot), LeafEntry(d.phys, d.level, slot));
      }
      assert LeafSlots(s.phys, s.level, f) == LeafSlots(d.phys, d.level, f);
    }
  }

  /** Refcounts, tables and holders as before; leaves as before or marked copy-on-write. */
  ghost predicate Abandoned(s: State, d: State) {
    && d.refs == s.refs && d.level == s.level && d.owner == s.owner && d.holders == s.holders
    && forall slot :: SoftEntry(LeafEntry(s.phys, s.level, slot), LeafEntry(d.phys, d.level, slot))
  }

  lemma AbandonedOk(s: State, s1: State, b: State, d: State, c: Frame, gone: set<Frame>)
    requires Inv(s) && |s.kernel| == 512 && c !in s.level && c !in s.owner && s1 == RootAdded(s, c)
    requires s1.holders == s.holders && Cloning(s1, b, c) && Destroyed(b, d, c, gone) && Inv(d)
    ensures Abandoned(s, d)
  {
    AbandonedTables(s, s1, b, d, c, gone);
    forall slot
      ensures SoftEntry(LeafEntry(s.phys, s.level, slot), LeafEntry(d.phys, d.level, slot))
    {
      AbandonedLeaf(s, s1, b, d, c, gone, slot);
    }
    SameCounts(s, d);
  }

  /** No table that was there before has become empty. */
  lemma AbandonedNonempty(s: State, s1: State, b: State, d: State, c: Frame, gone: set<Frame>)
    requires Inv(s) && |s.kernel| == 512 && c !in s.level && c !in s.owner && s1 == RootAdded(s, c)
    requires Cloning(s1, b, c) && Destroyed(b, d, c, gone) && Inv(d) && d.level == s.level && d.owner == s.owner
    requires Nonempty(s, {})
    ensures Nonempty(d, {})
  {
    forall t | t in d.owner
      ensures !TableEmpty(d.phys, t)
    {
      OwnedTable(s, t);
      AbandonedOld(s, s1, b, c, gone, t);
      assert KeptAt(s1, b, c, t);
      var j: nat :| j < 512 && EntryAt(s.phys, t, j).Used?;
      assert EntryAt(d.phys, t, j) == EntryAt(b.phys, t, j) && EntryAt(s1.phys, t, j) == EntryAt(s.phys, t, j);
      if s.level[t] == 1 {
        assert SoftEntry(EntryAt(s1.phys, t, j), EntryAt(b.phys, t, j));
      } else {
        assert EntryAt(b.phys, t, j) == EntryAt(s1.phys, t, j);
      }
      assert EntryAt(d.phys, t, j).Used?;
    }
  }
}
