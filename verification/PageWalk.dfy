/**
 Address translation: what the four-level walk reaches, that distinct pages
 reach distinct leaf slots, and which translations a slot update can change.
 */
module PageWalk {
  import opened Base
  import opened PageTables
  import opened PageSteps

  /** A walk from a root through user slots stays in the tables, one level per step. */
  lemma {:induction false} WalkLevel(s: State, r: Frame, pg: Page, d: nat)
    requires DownOk(s.phys, s.level, s.owner) && IsRoot(s, r) && UserPage(pg) && d <= 3
    requires TableAt(s.phys, r, pg, d).Some?
    ensures var t := TableAt(s.phys, r, pg, d).value;
            && t in s.level && s.level[t] == 4 - d && UserSlot(s.level[t], pg[d])
  {
    if d > 0 {
      WalkLevel(s, r, pg, d - 1);
      var t := TableAt(s.phys, r, pg, d - 1).value;
      assert DownAt(s.phys, s.level, s.owner, t, pg[d - 1]);
    }
  }

  /** Two walks that meet came from the same root by the same indices. */
  lemma {:induction false} WalkUnique(s: State, r: Frame, pg: Page, q: Frame, pg': Page, d: nat)
    requires DownOk(s.phys, s.level, s.owner) && IsRoot(s, r) && IsRoot(s, q)
    requires UserPage(pg) && UserPage(pg') && d <= 3
    requires TableAt(s.phys, r, pg, d).Some? && TableAt(s.phys, r, pg, d) == TableAt(s.phys, q, pg', d)
    ensures r == q && pg[..d] == pg'[..d]
  {
    if d > 0 {
      WalkLevel(s, r, pg, d - 1);
      WalkLevel(s, q, pg', d - 1);
      var t, u := TableAt(s.phys, r, pg, d - 1).value, TableAt(s.phys, q, pg', d - 1).value;
      assert DownAt(s.phys, s.level, s.owner, t, pg[d - 1]);
      assert DownAt(s.phys, s.level, s.owner, u, pg'[d - 1]);
      WalkUnique(s, r, pg, q, pg', d - 1);
      assert pg[..d] == pg[..d - 1] + [pg[d - 1]] && pg'[..d] == pg'[..d - 1] + [pg'[d - 1]];
    }
  }

  /** The slot that holds the leaf of a page, if its leaf table exists. */
  function SlotOf(phys: Memory, r: Frame, pg: Page): Option<Slot>
    requires |pg| == 4
  {
    match TableAt(phys, r, pg, 3)
    case None => None
    case Some(t) => Some(Slot(t, pg[3]))
  }

  /** Distinct pages, or equal pages of distinct spaces, have distinct leaf slots. */
  lemma SlotUnique(s: State, r: Frame, pg: Page, q: Frame, pg': Page)
    requires DownOk(s.phys, s.level, s.owner) && IsRoot(s, r) && IsRoot(s, q) && UserPage(pg) && UserPage(pg')
    requires SlotOf(s.phys, r, pg).Some? && SlotOf(s.phys, r, pg) == SlotOf(s.phys, q, pg')
    ensures r == q && pg == pg'
  {
    WalkUnique(s, r, pg, q, pg', 3);
    assert pg == pg[..3] + [pg[3]] && pg' == pg'[..3] + [pg'[3]];
  }

  lemma SlotIsLeafSlot(s: State, r: Frame, pg: Page)
    requires DownOk(s.phys, s.level, s.owner) && IsRoot(s, r) && UserPage(pg) && SlotOf(s.phys, r, pg).Some?
    ensures var slot := SlotOf(s.phys, r, pg).value;
            && LeafSlotOf(s, slot.table, slot.index)
            && LeafEntry(s.phys, s.level, slot) == LeafOf(s.phys, r, pg)
  {
    WalkLevel(s, r, pg, 3);
  }

  /** Conversely every leaf slot is the slot of one page of one space. */
  lemma LeafSlotReached(s: State, t: Frame, i: nat) returns (r: Frame, pg: Page)
    requires Shape(s.phys, s.level, s.owner) && Attached(s, {}) && LeafSlotOf(s, t, i)
    ensures IsRoot(s, r) && UserPage(pg) && SlotOf(s.phys, r, pg) == Some(Slot(t, i))
  {
    var pd, i2 := ParentOf(s, t);
    var pdpt, i1 := ParentOf(s, pd);
    var i0;
    r, i0 := ParentOf(s, pdpt);
    pg := [i0, i1, i2, i];
    assert TableAt(s.phys, r, pg, 0) == Some(r);
    assert TableAt(s.phys, r, pg, 1) == Some(pdpt);
    assert TableAt(s.phys, r, pg, 2) == Some(pd);
    assert TableAt(s.phys, r, pg, 3) == Some(t);
  }

  lemma ParentOf(s: State, c: Frame) returns (p: Frame, i: nat)
    requires Shape(s.phys, s.level, s.owner) && c in s.owner
    ensures c in s.level && p in s.level && s.level[p] == s.level[c] + 1 && UserSlot(s.level[p], i)
    ensures NextTable(EntryAt(s.phys, p, i)) == Some(c)
  {
    assert UpAt(s.phys, s.level, s.owner, c);
    p, i := s.owner[c].table, s.owner[c].index;
    assert DownAt(s.phys, s.level, s.owner, p, i);
  }

  // ------------------------------------------------------------- what can change

  /** Every user translation of every space of `s` is the same in `b`. */
  ghost predicate SameTranslation(s: State, b: State) {
    forall r, pg :: SameLeaf(s, b, r, pg)
  }

  ghost predicate SameLeaf(s: State, b: State, r: Frame, pg: Page) {
    IsRoot(s, r) && UserPage(pg) ==> LeafOf(b.phys, r, pg) == LeafOf(s.phys, r, pg)
  }

  lemma {:induction false} SameTablesWalk(s: State, b: State, r: Frame, pg: Page, d: nat)
    requires DownOk(s.phys, s.level, s.owner) && IsRoot(s, r) && UserPage(pg) && d <= 3
    requires forall t | t in s.level :: t in s.phys && t in b.phys && b.phys[t] == s.phys[t]
    ensures TableAt(b.phys, r, pg, d) == TableAt(s.phys, r, pg, d)
  {
    if d > 0 {
      SameTablesWalk(s, b, r, pg, d - 1);
      if TableAt(s.phys, r, pg, d - 1).Some? {
        WalkLevel(s, r, pg, d - 1);
      }
    }
  }

  /** Writing frames that are no tables changes no translation. */
  lemma DataTranslation(s: State, b: State)
    requires DownOk(s.phys, s.level, s.owner)
    requires forall t | t in s.level :: t in s.phys && t in b.phys && b.phys[t] == s.phys[t]
    ensures SameTranslation(s, b)
  {
    forall r, pg
      ensures SameLeaf(s, b, r, pg)
    {
      if IsRoot(s, r) && UserPage(pg) {
        SameTablesWalk(s, b, r, pg, 3);
        if TableAt(s.phys, r, pg, 3).Some? {
          WalkLevel(s, r, pg, 3);
        }
      }
    }
  }

  /** Linking an empty table under an unused slot changes no translation. */
  lemma LinkTranslation(s: State, b: State, p: Frame, i: nat, f: Frame, flags: Flags)
    requires DownOk(s.phys, s.level, s.owner) && f !in s.level
    requires EntryAt(s.phys, p, i).Unused? && Linked(s, b, p, i, f, flags)
    ensures SameTranslation(s, b)
  {
    forall r, pg
      ensures SameLeaf(s, b, r, pg)
    {
      if IsRoot(s, r) && UserPage(pg) {
        LinkWalk(s, b, p, i, f, flags, r, pg, 3);
        if TableAt(s.phys, r, pg, 3).Some? {
          WalkLevel(s, r, pg, 3);
        }
      }
    }
  }

  lemma {:induction false} LinkWalk(s: State, b: State, p: Frame, i: nat, f: Frame, flags: Flags,
                                    r: Frame, pg: Page, d: nat)
    requires DownOk(s.phys, s.level, s.owner) && f !in s.level && IsRoot(s, r) && UserPage(pg) && d <= 3
    requires EntryAt(s.phys, p, i).Unused? && Linked(s, b, p, i, f, flags)
    ensures TableAt(b.phys, r, pg, d) == TableAt(s.phys, r, pg, d)
            || (TableAt(s.phys, r, pg, d).None? && TableAt(b.phys, r, pg, d) == Some(f))
  {
    if d > 0 {
      LinkWalk(s, b, p, i, f, flags, r, pg, d - 1);
      if TableAt(s.phys, r, pg, d - 1).Some? {
        WalkLevel(s, r, pg, d - 1);
      }
    }
  }

  /** `b` differs from `s` at one leaf slot. */
  ghost predicate LeafPutAt(s: State, b: State, t: Frame, i: nat, e: Entry) {
    && LeafSlotOf(s, t, i)
    && (forall u, j: nat :: EntryAt(b.phys, u, j) == if u == t && j == i then e else EntryAt(s.phys, u, j))
  }

  lemma {:induction false} LeafPutWalk(s: State, b: State, t: Frame, i: nat, e: Entry, r: Frame, pg: Page, d: nat)
    requires DownOk(s.phys, s.level, s.owner) && IsRoot(s, r) && UserPage(pg) && d <= 3
    requires LeafPutAt(s, b, t, i, e)
    ensures TableAt(b.phys, r, pg, d) == TableAt(s.phys, r, pg, d)
  {
    if d > 0 {
      LeafPutWalk(s, b, t, i, e, r, pg, d - 1);
      if TableAt(s.phys, r, pg, d - 1).Some? {
        WalkLevel(s, r, pg, d - 1);
      }
    }
  }

  /** A leaf update changes the translation of the one page whose slot it is. */
  lemma LeafPutTranslation(s: State, b: State, r: Frame, pg: Page, e: Entry)
    requires DownOk(s.phys, s.level, s.owner) && IsRoot(s, r) && UserPage(pg) && SlotOf(s.phys, r, pg).Some?
    requires LeafPutAt(s, b, SlotOf(s.phys, r, pg).value.table, SlotOf(s.phys, r, pg).value.index, e)
    ensures SlotOf(b.phys, r, pg) == SlotOf(s.phys, r, pg)
    ensures OneChanged(s, b, r, pg, e)
  {
    var at := SlotOf(s.phys, r, pg).value;
    forall q, pg'
      ensures ChangedAt(s, b, r, pg, e, q, pg')
    {
      if IsRoot(s, q) && UserPage(pg') {
        LeafPutWalk(s, b, at.table, at.index, e, q, pg', 3);
        if SlotOf(s.phys, q, pg') == Some(at) {
          SlotUnique(s, q, pg', r, pg);
        }
      }
    }
    LeafPutWalk(s, b, at.table, at.index, e, r, pg, 3);
  }

  /** The translation of one page becomes `e`; all others stay. */
  ghost predicate OneChanged(s: State, b: State, r: Frame, pg: Page, e: Entry) {
    forall q, pg' :: ChangedAt(s, b, r, pg, e, q, pg')
  }

  ghost predicate ChangedAt(s: State, b: State, r: Frame, pg: Page, e: Entry, q: Frame, pg': Page) {
    IsRoot(s, q) && UserPage(pg') ==>
      LeafOf(b.phys, q, pg') == if q == r && pg' == pg then e else LeafOf(s.phys, q, pg')
  }
}
