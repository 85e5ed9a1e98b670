/** What each slot update does to the tree shape and to the two views of the spaces. */
module PageEffects {
  import opened Base
  import opened PageTables
  import opened PageSteps
  import opened PageWalk
  import opened SpaceView

  /** Neither the leaf maps nor what programs see has changed. */
  ghost predicate SameViews(s: State, b: State) {
    && Translations(b.phys, b.level) == Translations(s.phys, s.level)
    && Spaces(b.phys, b.level) == Spaces(s.phys, s.level)
  }

  lemma QuietViews(s: State, b: State)
    requires DownOk(s.phys, s.level, s.owner) && SameTranslation(s, b) && SameRoots(s, b) && SameData(s, b)
    ensures SameViews(s, b)
  {
    SameTranslations(s, b);
    SameSpaces(s, b);
  }

  /** Writing a frame that no leaf names and that is no table. */
  lemma FillStep(s: State, f: Frame, bytes: seq<bv8>)
    requires Inv(s) && Fresh(s, f) && |bytes| == 0x1000
    ensures var b := s.(phys := s.phys[f := Data(bytes)]);
            && Inv(b) && SameViews(s, b) && f !in s.level
            && (forall x: set<Frame> :: Nonempty(s, x) ==> Nonempty(b, x))
  {
    var b := s.(phys := s.phys[f := Data(bytes)]);
    assert AccountedAt(s, f);
    OnlyHeld(s, f);
    WriteDataInv(s, f, bytes);
    DataTranslation(s, b);
    forall slot
      ensures DataAt(s, b, slot)
    {
      assert !Names(s.phys, s.level, slot, f);
    }
    QuietViews(s, b);
    DataNonempty(s, b);
  }

  lemma OwnedTable(s: State, t: Frame)
    requires UpOk(s.phys, s.level, s.owner) && t in s.owner
    ensures t in s.level
  {
    assert UpAt(s.phys, s.level, s.owner, t);
  }

  lemma SameEmptiness(x: Memory, y: Memory, t: Frame)
    requires t in x && t in y && x[t] == y[t]
    ensures TableEmpty(x, t) == TableEmpty(y, t)
  {
    forall i: nat
      ensures EntryAt(x, t, i) == EntryAt(y, t, i)
    {
    }
  }

  // ------------------------------------------------------------------- tables

  lemma LinkStep(s: State, p: Frame, i: nat, f: Frame, flags: Flags)
    requires Inv(s) && TableSlotOf(s, p, i) && EntryAt(s.phys, p, i).Unused? && Fresh(s, f) && ParentFlags(flags)
    ensures f !in s.level && IsTable(s.phys, p)
    ensures var b := Link(s, p, i, f, flags);
            && Inv(b) && SameViews(s, b) && Linked(s, b, p, i, f, flags)
            && TableEmpty(b.phys, f) && NextTable(EntryAt(b.phys, p, i)) == Some(f)
  {
    LinkInv(s, p, i, f, flags);
    var b := Link(s, p, i, f, flags);
    LinkViews(s, b, p, i, f, flags);
  }

  lemma LinkViews(s: State, b: State, p: Frame, i: nat, f: Frame, flags: Flags)
    requires Inv(s) && TableSlotOf(s, p, i) && EntryAt(s.phys, p, i).Unused? && AccountedAt(s, f) && f in s.refs
    requires Count(s, f) == Held(s, f) && Linked(s, b, p, i, f, flags)
    ensures SameViews(s, b)
  {
    OnlyHeld(s, f);
    LinkTranslation(s, b, p, i, f, flags);
    forall slot
      ensures DataAt(s, b, slot)
    {
      assert !Names(s.phys, s.level, slot, f);
      assert LeafAtOk(s.phys, s.level, s.refs, slot);
    }
    forall r
      ensures IsRoot(b, r) <==> IsRoot(s, r)
    {
    }
    QuietViews(s, b);
  }

  /** Linking fills the parent and leaves only the new table empty. */
  lemma LinkNonempty(s: State, b: State, p: Frame, i: nat, f: Frame, flags: Flags, x: set<Frame>)
    requires TablesOk(s.phys, s.level) && UpOk(s.phys, s.level, s.owner) && f !in s.level && i < 512
    requires Linked(s, b, p, i, f, flags) && Nonempty(s, x)
    ensures Nonempty(b, x - {p} + {f})
  {
    forall t | t in b.owner && t !in x - {p} + {f}
      ensures !TableEmpty(b.phys, t)
    {
      if t == p {
        assert EntryAt(b.phys, p, i).Used?;
      } else {
        OwnedTable(s, t);
        var j: nat :| j < 512 && EntryAt(s.phys, t, j).Used?;
        assert EntryAt(b.phys, t, j) == EntryAt(s.phys, t, j);
      }
    }
  }

  /** Detaching an empty table, dropping it and releasing its frame, in one step. */
  function Pruned1(s: State, f: Frame): State
    requires f in s.owner && IsTable(s.phys, s.owner[f].table) && s.owner[f].index < 512
  {
    State(Put(s.phys, s.owner[f].table, s.owner[f].index, Unused), s.refs[f := 0],
          s.level - {f}, s.owner - {f}, s.holders[f := 0], s.kernel)
  }

  lemma PruneStep(s: State, f: Frame)
    requires Inv(s) && f in s.owner && TableEmpty(s.phys, f)
    ensures IsTable(s.phys, s.owner[f].table) && s.owner[f].index < 512
    ensures Inv(Pruned1(s, f)) && SameViews(s, Pruned1(s, f))
    ensures f in s.refs && Count(s, f) == 1 && f in s.holders && Held(s, f) == 0
  {
    OwnerSlot(s, f);
    var p, i := s.owner[f].table, s.owner[f].index;
    DetachInv(s, f);
    var d := Detach(s, f);
    DetachedEmpty(s, f);
    DiscardInv(d, f);
    TableUnnamed(s, f);
    var e := Discard(d, f);
    ReleaseInv(e, f);
    var b := Pruned1(s, f);
    assert b == e.(refs := Minus(e.refs, f), holders := Minus(e.holders, f));
    PruneViews(s, f, b);
  }

  lemma DetachedEmpty(s: State, f: Frame)
    requires Inv(s) && f in s.owner && TableEmpty(s.phys, f)
    ensures IsTable(s.phys, s.owner[f].table) && s.owner[f].index < 512
    ensures Loose(Detach(s, f), f) && TableEmpty(Detach(s, f).phys, f)
  {
    OwnerSlot(s, f);
    var d := Detach(s, f);
    forall j: nat | j < 512
      ensures EntryAt(d.phys, f, j).Unused?
    {
      assert EntryAt(s.phys, f, j).Unused?;
    }
  }

  /** Pruning is linking read backwards, so it too changes no translation. */
  lemma PruneViews(s: State, f: Frame, b: State)
    requires Inv(s) && f in s.owner && TableEmpty(s.phys, f) && Inv(b)
    requires IsTable(s.phys, s.owner[f].table) && s.owner[f].index < 512 && b == Pruned1(s, f)
    requires Held(s, f) == 0 && f in s.refs && f in s.holders && Count(s, f) == 1
    ensures SameViews(s, b)
  {
    OwnerSlot(s, f);
    var p, i := s.owner[f].table, s.owner[f].index;
    var flags := EntryAt(s.phys, p, i).flags;
    PruneLinked(s, f, b);
    var c := b.(refs := b.refs[f := 1]);
    LinkTranslation(c, s, p, i, f, flags);
    forall slot
      ensures DataAt(s, b, slot)
    {
      assert LeafAtOk(s.phys, s.level, s.refs, slot);
    }
    forall r, pg
      ensures SameLeaf(s, b, r, pg)
    {
      assert SameLeaf(c, s, r, pg);
      assert IsRoot(s, r) ==> r != f;
    }
    forall r
      ensures IsRoot(b, r) <==> IsRoot(s, r)
    {
    }
    QuietViews(s, b);
  }

  lemma PruneLinked(s: State, f: Frame, b: State)
    requires Inv(s) && f in s.owner && TableEmpty(s.phys, f)
    requires IsTable(s.phys, s.owner[f].table) && s.owner[f].index < 512 && b == Pruned1(s, f)
    requires Held(s, f) == 0 && f in s.refs && f in s.holders && Count(s, f) == 1
    ensures var p, i := s.owner[f].table, s.owner[f].index;
            && f !in b.level && EntryAt(b.phys, p, i).Unused? && EntryAt(s.phys, p, i).Used?
            && Linked(b.(refs := b.refs[f := 1]), s, p, i, f, EntryAt(s.phys, p, i).flags)
  {
    OwnerSlot(s, f);
    var p, i := s.owner[f].table, s.owner[f].index;
    forall j: nat
      ensures EntryAt(s.phys, f, j).Unused?
    {
      if j < 512 {
        assert EntryAt(s.phys, f, j).Unused?;
      }
    }
    assert s.refs == b.refs[f := 1] && s.holders == b.holders[f := 0];
    assert s.level == b.level[f := s.level[f]];
    assert s.owner == b.owner[f := Slot(p, i)];
  }

  /** Only the parent of a pruned table can have become empty. */
  lemma PruneNonempty(s: State, f: Frame, b: State)
    requires TablesOk(s.phys, s.level) && UpOk(s.phys, s.level, s.owner) && f in s.owner
    requires IsTable(s.phys, s.owner[f].table) && s.owner[f].index < 512 && b == Pruned1(s, f)
    requires Nonempty(s, {f})
    ensures Nonempty(b, {s.owner[f].table})
  {
    forall t | t in b.owner && t != s.owner[f].table
      ensures !TableEmpty(b.phys, t)
    {
      var j: nat :| j < 512 && EntryAt(s.phys, t, j).Used?;
      assert EntryAt(b.phys, t, j) == EntryAt(s.phys, t, j);
    }
  }

  // ------------------------------------------------------------------- leaves

  lemma PutIsLeafPut(s: State, b: State, t: Frame, i: nat, e: Entry)
    requires TablesOk(s.phys, s.level) && LeafSlotOf(s, t, i) && b.phys == Put(s.phys, t, i, e)
    ensures LeafPutAt(s, b, t, i, e)
  {
  }

  lemma PutKeepsData(s: State, b: State, t: Frame, i: nat, e: Entry)
    requires TablesOk(s.phys, s.level) && LeafSlotOf(s, t, i) && b.phys == Put(s.phys, t, i, e)
    requires LeavesOk(s.phys, s.level, s.refs)
    ensures SameData(s, b)
  {
    forall slot
      ensures DataAt(s, b, slot)
    {
      assert LeafAtOk(s.phys, s.level, s.refs, slot);
    }
  }

  /** The views after a leaf of page `pg` is rewritten to `e`. */
  ghost predicate PageSet(s: State, b: State, r: Frame, pg: Page, e: Entry) {
    && r in Spaces(s.phys, s.level) && r in Translations(s.phys, s.level)
    && Translations(b.phys, b.level) ==
       Translations(s.phys, s.level)[r := WithEntry(Leaves(s.phys, r), pg, e)]
    && Spaces(b.phys, b.level) ==
       Spaces(s.phys, s.level)[r := WithPage(SpaceOf(s.phys, r), pg, ViewOf(b.phys, e))]
  }

  lemma LeafViews(s: State, b: State, r: Frame, pg: Page, e: Entry)
    requires Inv(s) && IsRoot(s, r) && UserPage(pg) && SlotOf(s.phys, r, pg).Some?
    requires b.level == s.level
    requires var at := SlotOf(s.phys, r, pg).value;
             IsTable(s.phys, at.table) && at.index < 512 && b.phys == Put(s.phys, at.table, at.index, e)
    ensures PageSet(s, b, r, pg, e) && SlotOf(b.phys, r, pg) == SlotOf(s.phys, r, pg)
  {
    var at := SlotOf(s.phys, r, pg).value;
    SlotIsLeafSlot(s, r, pg);
    PutIsLeafPut(s, b, at.table, at.index, e);
    PutKeepsData(s, b, at.table, at.index, e);
    LeafPutTranslation(s, b, r, pg, e);
    OneTranslation(s, b, r, pg, e);
    OneSpace(s, b, r, pg, e);
  }

  lemma LeafNonempty(s: State, b: State, t: Frame, i: nat, e: Entry, x: set<Frame>)
    requires TablesOk(s.phys, s.level) && IsTable(s.phys, t) && i < 512 && b.phys == Put(s.phys, t, i, e)
    requires b.owner == s.owner && Nonempty(s, x)
    ensures e.Used? ==> Nonempty(b, x - {t})
    ensures Nonempty(b, x + {t})
  {
    forall u | u in b.owner && u != t && u !in x
      ensures !TableEmpty(b.phys, u)
    {
      var j: nat :| j < 512 && EntryAt(s.phys, u, j).Used?;
      assert EntryAt(b.phys, u, j) == EntryAt(s.phys, u, j);
    }
    if e.Used? {
      assert EntryAt(b.phys, t, i).Used?;
    }
  }

  /** A space with other bytes in one page. */
  ghost function WithStored(phys: Memory, r: Frame, pg: Page, bytes: seq<bv8>): Space
    requires |pg| == 4 && LeafOf(phys, r, pg).Used?
  {
    WithPage(SpaceOf(phys, r), pg, Some(PageView(phys, LeafOf(phys, r, pg)).(bytes := bytes)))
  }

  /** A store through a writable leaf: its frame is named by no other leaf. */
  lemma StoreStep(s: State, r: Frame, pg: Page, bytes: seq<bv8>)
    requires Inv(s) && IsRoot(s, r) && UserPage(pg) && |bytes| == 0x1000
    requires LeafOf(s.phys, r, pg).Used? && LeafOf(s.phys, r, pg).flags.writable
    ensures var b := s.(phys := s.phys[LeafOf(s.phys, r, pg).frame := Data(bytes)]);
            && Inv(b) && r in Spaces(s.phys, s.level)
            && Translations(b.phys, b.level) == Translations(s.phys, s.level)
            && Spaces(b.phys, b.level) ==
               Spaces(s.phys, s.level)[r := WithStored(s.phys, r, pg, bytes)]
            && (forall x: set<Frame> :: Nonempty(s, x) ==> Nonempty(b, x))
  {
    var e, at := LeafOf(s.phys, r, pg), SlotOf(s.phys, r, pg).value;
    var b := s.(phys := s.phys[e.frame := Data(bytes)]);
    SlotIsLeafSlot(s, r, pg);
    LeafIsOk(s, at.table, at.index);
    WriteDataInv(s, e.frame, bytes);
    DataTranslation(s, b);
    SameTranslations(s, b);
    StoreViews(s, b, r, pg, bytes);
    DataNonempty(s, b);
  }

  lemma StoreViews(s: State, b: State, r: Frame, pg: Page, bytes: seq<bv8>)
    requires Inv(s) && IsRoot(s, r) && UserPage(pg) && SameTranslation(s, b)
    requires LeafOf(s.phys, r, pg).Used? && LeafOf(s.phys, r, pg).flags.writable
    requires b == s.(phys := s.phys[LeafOf(s.phys, r, pg).frame := Data(bytes)])
    ensures r in Spaces(s.phys, s.level)
    ensures Spaces(b.phys, b.level) ==
            Spaces(s.phys, s.level)[r := WithStored(s.phys, r, pg, bytes)]
  {
    var e, at := LeafOf(s.phys, r, pg), SlotOf(s.phys, r, pg).value;
    SlotIsLeafSlot(s, r, pg);
    LeafIsOk(s, at.table, at.index);
    forall q, pg'
      ensures ChangedAt(s, b, r, pg, e, q, pg')
    {
      assert SameLeaf(s, b, q, pg');
    }
    forall slot | slot != at
      ensures DataAt(s, b, slot)
    {
      if Names(s.phys, s.level, slot, e.frame) {
        assert AccountedAt(s, e.frame);
        TwoLeaves(s, at, slot, e.frame);
      }
    }
    OneSpace(s, b, r, pg, e);
  }

  lemma DataNonempty(s: State, b: State)
    requires UpOk(s.phys, s.level, s.owner) && b.owner == s.owner
    requires forall t | t in s.level :: t in s.phys && t in b.phys && b.phys[t] == s.phys[t]
    ensures forall x: set<Frame> :: Nonempty(s, x) ==> Nonempty(b, x)
  {
    forall x: set<Frame> | Nonempty(s, x)
      ensures Nonempty(b, x)
    {
      forall t | t in b.owner && t !in x
        ensures !TableEmpty(b.phys, t)
      {
        OwnedTable(s, t);
        SameEmptiness(s.phys, b.phys, t);
      }
    }
  }

  /** A leaf that keeps showing the same page leaves every space as it was. */
  lemma LeafQuiet(s: State, b: State, r: Frame, pg: Page, e: Entry)
    requires IsRoot(s, r) && UserPage(pg) && LeafOf(s.phys, r, pg).Used? && e.Used?
    requires PageSet(s, b, r, pg, e) && PageView(b.phys, e) == PageView(s.phys, LeafOf(s.phys, r, pg))
    ensures Spaces(b.phys, b.level) == Spaces(s.phys, s.level)
  {
    assert Spaces(s.phys, s.level)[r] == SpaceOf(s.phys, r);
    SameViewSameSpace(Spaces(s.phys, s.level), r, pg, PageView(b.phys, e));
  }
}
