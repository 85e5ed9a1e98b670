/**
 Growing and pruning the path of tables to one page. A walk that creates missing
 tables and then fails is undone exactly by pruning the path bottom-up.
 */
module PagePaths {
  import opened Base
  import opened PageTables
  import opened PageSteps
  import opened PageWalk
  import opened SpaceView
  import opened PageEffects

  const PARENT_FLAGS := Flags(present := true, writable := true, user := true, huge := false,
                              noExecute := false, cow := false)

  // ------------------------------------------------------------------ pruning

  /** Whether the walk stands on an empty table that can be given up. */
  ghost predicate Prunable(s: State, r: Frame, pg: Page, d: nat)
    requires |pg| == 4 && d <= 3
  {
    && 0 < d && TableAt(s.phys, r, pg, d).Some?
    && var t := TableAt(s.phys, r, pg, d).value;
       TableEmpty(s.phys, t) && t in s.owner && IsTable(s.phys, s.owner[t].table) && s.owner[t].index < 512
  }

  /** The tables of a path given up from depth `d` upwards while they are empty. */
  ghost function PrunePath(s: State, r: Frame, pg: Page, d: nat): State
    requires |pg| == 4 && d <= 3
    decreases d
  {
    if Prunable(s, r, pg, d)
    then PrunePath(Pruned1(s, TableAt(s.phys, r, pg, d).value), r, pg, d - 1)
    else s
  }

  /** The table above in the walk is the owner, and the walk above survives the prune. */
  lemma PruneParent(s: State, r: Frame, pg: Page, d: nat)
    requires Inv(s) && IsRoot(s, r) && UserPage(pg) && 0 < d <= 3 && TableAt(s.phys, r, pg, d).Some?
    ensures var t := TableAt(s.phys, r, pg, d).value;
            && t in s.owner && TableAt(s.phys, r, pg, d - 1).Some?
            && s.owner[t] == Slot(TableAt(s.phys, r, pg, d - 1).value, pg[d - 1])
            && IsTable(s.phys, s.owner[t].table) && s.owner[t].index < 512
  {
    WalkLevel(s, r, pg, d - 1);
    assert DownAt(s.phys, s.level, s.owner, TableAt(s.phys, r, pg, d - 1).value, pg[d - 1]);
  }

  lemma {:induction false} PruneWalk(s: State, r: Frame, pg: Page, d: nat, k: nat)
    requires Inv(s) && IsRoot(s, r) && UserPage(pg) && k < d <= 3 && Prunable(s, r, pg, d)
    ensures var b := Pruned1(s, TableAt(s.phys, r, pg, d).value);
            IsRoot(b, r) && TableAt(b.phys, r, pg, k) == TableAt(s.phys, r, pg, k)
  {
    var t := TableAt(s.phys, r, pg, d).value;
    WalkLevel(s, r, pg, d);
    if 0 < k {
      PruneWalk(s, r, pg, d, k - 1);
      PruneParent(s, r, pg, d);
      if TableAt(s.phys, r, pg, k - 1).Some? {
        WalkLevel(s, r, pg, k - 1);
        WalkLevel(s, r, pg, d - 1);
      }
    }
  }

  /** What a prune leaves alone. */
  ghost predicate Trimmed(s: State, b: State, r: Frame) {
    SameViews(s, b) && IsRoot(b, r) && b.holders == s.holders && b.kernel == s.kernel
  }

  lemma TrimmedSelf(s: State, r: Frame)
    requires IsRoot(s, r)
    ensures Trimmed(s, s, r)
  {
  }

  lemma TrimmedTwice(s: State, b: State, e: State, r: Frame)
    requires Trimmed(s, b, r) && Trimmed(b, e, r)
    ensures IsRoot(b, r) && Trimmed(s, e, r)
  {
  }

  lemma PruneOnce(s: State, r: Frame, pg: Page, d: nat)
    requires Inv(s) && IsRoot(s, r) && UserPage(pg) && 0 < d <= 3 && Prunable(s, r, pg, d)
    requires Nonempty(s, {TableAt(s.phys, r, pg, d).value}) && Attached(s, {})
    ensures var b := Pruned1(s, TableAt(s.phys, r, pg, d).value);
            && Inv(b) && Trimmed(s, b, r) && Attached(b, {})
            && TableAt(b.phys, r, pg, d - 1).Some? && Nonempty(b, {TableAt(b.phys, r, pg, d - 1).value})
  {
    var t := TableAt(s.phys, r, pg, d).value;
    PruneStep(s, t);
    PruneFrame(s, t);
    PruneNonemptyAbove(s, r, pg, d);
  }

  lemma PruneFrame(s: State, t: Frame)
    requires t in s.owner && IsTable(s.phys, s.owner[t].table) && s.owner[t].index < 512
    requires t in s.holders && Held(s, t) == 0 && Attached(s, {})
    ensures Pruned1(s, t).holders == s.holders && Attached(Pruned1(s, t), {})
  {
  }

  lemma PruneNonemptyAbove(s: State, r: Frame, pg: Page, d: nat)
    requires Inv(s) && IsRoot(s, r) && UserPage(pg) && 0 < d <= 3 && Prunable(s, r, pg, d)
    requires Nonempty(s, {TableAt(s.phys, r, pg, d).value})
    ensures var b := Pruned1(s, TableAt(s.phys, r, pg, d).value);
            IsRoot(b, r) && TableAt(b.phys, r, pg, d - 1).Some? && Nonempty(b, {TableAt(b.phys, r, pg, d - 1).value})
  {
    var t := TableAt(s.phys, r, pg, d).value;
    PruneParent(s, r, pg, d);
    PruneWalk(s, r, pg, d, d - 1);
    PruneNonempty(s, t, Pruned1(s, t));
  }

  lemma PruneStops(s: State, r: Frame, pg: Page, d: nat)
    requires Inv(s) && IsRoot(s, r) && UserPage(pg) && d <= 3 && TableAt(s.phys, r, pg, d).Some?
    requires Nonempty(s, {TableAt(s.phys, r, pg, d).value}) && !Prunable(s, r, pg, d)
    ensures Nonempty(s, {})
  {
    if 0 < d {
      PruneParent(s, r, pg, d);
    } else {
      RootUnowned(s, r);
    }
  }

  /** Pruning keeps the invariant and the views, and removes the last empty table. */
  lemma {:induction false} PrunePathOk(s: State, r: Frame, pg: Page, d: nat)
    requires Inv(s) && IsRoot(s, r) && UserPage(pg) && d <= 3 && TableAt(s.phys, r, pg, d).Some?
    requires Nonempty(s, {TableAt(s.phys, r, pg, d).value}) && Attached(s, {})
    ensures var b := PrunePath(s, r, pg, d);
            Inv(b) && Trimmed(s, b, r) && Nonempty(b, {}) && Attached(b, {})
    decreases d
  {
    hide Inv, Nonempty, Attached, Trimmed, Pruned1;
    if Prunable(s, r, pg, d) {
      PruneOnce(s, r, pg, d);
      var c := Pruned1(s, TableAt(s.phys, r, pg, d).value);
      PrunePathOk(c, r, pg, d - 1);
      TrimmedTwice(s, c, PrunePath(c, r, pg, d - 1), r);
    } else {
      PruneStops(s, r, pg, d);
      TrimmedSelf(s, r);
    }
  }

  lemma RootUnowned(s: State, r: Frame)
    requires UpOk(s.phys, s.level, s.owner) && IsRoot(s, r)
    ensures r !in s.owner
  {
    assert UpAt(s.phys, s.level, s.owner, r);
  }

  // --------------------------------------------------------- exact restoration

  /** Equal but for the contents of frames that are free. */
  ghost predicate Restored(a: State, b: State) {
    && b.refs == a.refs && b.level == a.level && b.owner == a.owner
    && b.holders == a.holders && b.kernel == a.kernel && b.phys.Keys == a.phys.Keys
    && forall f | f in a.phys && !(f in a.refs && a.refs[f] == 0) :: b.phys[f] == a.phys[f]
  }

  /** Restoration brings back every leaf map and everything programs see. */
  lemma RestoredViews(a: State, b: State)
    requires Inv(a) && Restored(a, b)
    ensures SameViews(a, b) && b.holders == a.holders
    ensures forall x: set<Frame> :: (Nonempty(a, x) ==> Nonempty(b, x)) && (Attached(a, x) ==> Attached(b, x))
  {
    forall t | t in a.level
      ensures t in a.phys && t in b.phys && b.phys[t] == a.phys[t]
    {
      TableUnnamed(a, t);
    }
    DataTranslation(a, b);
    forall slot
      ensures DataAt(a, b, slot)
    {
      assert LeafAtOk(a.phys, a.level, a.refs, slot);
      if LeafEntry(a.phys, a.level, slot).Used? {
        LeafLive(a, slot);
      }
    }
    QuietViews(a, b);
    forall x: set<Frame> | Nonempty(a, x)
      ensures Nonempty(b, x)
    {
      forall t | t in b.owner && t !in x
        ensures !TableEmpty(b.phys, t)
      {
        OwnedTable(a, t);
        SameEmptiness(a.phys, b.phys, t);
      }
    }
  }

  /** A frame that a leaf names is in use. */
  lemma LeafLive(s: State, slot: Slot)
    requires Inv(s) && LeafEntry(s.phys, s.level, slot).Used?
    ensures 0 < Count(s, LeafEntry(s.phys, s.level, slot).frame)
  {
    var f := LeafEntry(s.phys, s.level, slot).frame;
    assert AccountedAt(s, f) && LeafAtOk(s.phys, s.level, s.refs, slot);
    LeafSlotsMember(s.phys, s.level, f, slot);
  }

  lemma {:induction false} RestoredWalk(a: State, b: State, r: Frame, pg: Page, d: nat)
    requires Inv(a) && Restored(a, b) && IsRoot(a, r) && UserPage(pg) && d <= 3
    ensures TableAt(b.phys, r, pg, d) == TableAt(a.phys, r, pg, d)
  {
    if 0 < d {
      RestoredWalk(a, b, r, pg, d - 1);
      if TableAt(a.phys, r, pg, d - 1).Some? {
        WalkLevel(a, r, pg, d - 1);
        TableUnnamed(a, TableAt(a.phys, r, pg, d - 1).value);
      }
    }
  }

  lemma RestoredPrunable(a: State, b: State, r: Frame, pg: Page, d: nat)
    requires Inv(a) && Restored(a, b) && IsRoot(a, r) && UserPage(pg) && 0 < d <= 3
    ensures Prunable(a, r, pg, d) <==> Prunable(b, r, pg, d)
  {
    RestoredWalk(a, b, r, pg, d);
    if TableAt(a.phys, r, pg, d).Some? {
      PruneParent(a, r, pg, d);
      WalkLevel(a, r, pg, d);
      var t := TableAt(a.phys, r, pg, d).value;
      TableUnnamed(a, t);
      SameEmptiness(a.phys, b.phys, t);
      OwnerSlot(a, t);
      TableUnnamed(a, a.owner[t].table);
    }
  }

  /** Pruning cannot tell restored states apart. */
  lemma {:induction false} PruneRespects(a: State, b: State, r: Frame, pg: Page, d: nat)
    requires Inv(a) && Restored(a, b) && IsRoot(a, r) && UserPage(pg) && d <= 3
    ensures Restored(PrunePath(a, r, pg, d), PrunePath(b, r, pg, d))
    decreases d
  {
    if 0 < d {
      RestoredPrunable(a, b, r, pg, d);
      if Prunable(a, r, pg, d) {
        PruneOnceRespects(a, b, r, pg, d);
        var t := TableAt(a.phys, r, pg, d).value;
        PruneRespects(Pruned1(a, t), Pruned1(b, t), r, pg, d - 1);
      }
    }
  }

  lemma PruneOnceRespects(a: State, b: State, r: Frame, pg: Page, d: nat)
    requires Inv(a) && Restored(a, b) && IsRoot(a, r) && UserPage(pg) && 0 < d <= 3
    requires Prunable(a, r, pg, d) && Prunable(b, r, pg, d)
    ensures var t := TableAt(a.phys, r, pg, d).value;
            && TableAt(b.phys, r, pg, d) == Some(t)
            && Inv(Pruned1(a, t)) && IsRoot(Pruned1(a, t), r) && Restored(Pruned1(a, t), Pruned1(b, t))
  {
    RestoredWalk(a, b, r, pg, d);
    var t := TableAt(a.phys, r, pg, d).value;
    PruneStep(a, t);
    Pruned1Respects(a, b, t);
    PruneWalk(a, r, pg, d, 0);
  }

  lemma Pruned1Respects(a: State, b: State, t: Frame)
    requires Inv(a) && Restored(a, b) && t in a.owner && t in a.refs
    ensures IsTable(a.phys, a.owner[t].table) && IsTable(b.phys, a.owner[t].table) && a.owner[t].index < 512
    ensures Restored(Pruned1(a, t), Pruned1(b, t))
  {
    OwnerSlot(a, t);
    TableUnnamed(a, a.owner[t].table);
  }

  lemma RestoredSelf(a: State)
    ensures Restored(a, a)
  {
  }

  lemma RestoredTransitive(a: State, b: State, c: State)
    requires Restored(a, b) && Restored(b, c)
    ensures Restored(a, c)
  {
  }

  // ------------------------------------------------------------------ growing

  /** A free frame allocated and linked as an empty table. */
  function Grow(s: State, p: Frame, i: nat, f: Frame): State
    requires IsTable(s.phys, p) && i < 512 && p in s.level && 0 < s.level[p] && f != p
  {
    Link(s.(refs := s.refs[f := 1], holders := s.holders[f := 1]), p, i, f, PARENT_FLAGS)
  }

  lemma GrowStep(s: State, p: Frame, i: nat, f: Frame)
    requires Inv(s) && TableSlotOf(s, p, i) && EntryAt(s.phys, p, i).Unused? && f in s.refs && Count(s, f) == 0
    ensures f !in s.level && IsTable(s.phys, p)
    ensures var b := Grow(s, p, i, f);
            && Inv(b) && SameViews(s, b)
            && TableEmpty(b.phys, f) && NextTable(EntryAt(b.phys, p, i)) == Some(f)
            && Linked(s.(refs := s.refs[f := 1], holders := s.holders[f := 1]), b, p, i, f, PARENT_FLAGS)
  {
    AllocateInv(s, f);
    LinkStep(s.(refs := s.refs[f := 1], holders := s.holders[f := 1]), p, i, f, PARENT_FLAGS);
  }

  /** Pruning a table just grown gives the state before, but for a free frame's contents. */
  lemma GrowPruned(s: State, p: Frame, i: nat, f: Frame)
    requires Inv(s) && TableSlotOf(s, p, i) && EntryAt(s.phys, p, i).Unused? && f in s.refs && Count(s, f) == 0
    ensures f !in s.level && IsTable(s.phys, p)
    ensures var b := Grow(s, p, i, f);
            && f in b.owner && b.owner[f] == Slot(p, i) && IsTable(b.phys, p) && i < 512
            && Restored(s, Pruned1(b, f))
  {
    assert AccountedAt(s, f) && UpAt(s.phys, s.level, s.owner, f);
    OnlyHeld(s, f);
    GrowPrunedMemory(s, p, i, f);
    GrowPrunedMaps(s, p, i, f);
  }

  lemma GrowPrunedMaps(s: State, p: Frame, i: nat, f: Frame)
    requires IsTable(s.phys, p) && i < 512 && p in s.level && 0 < s.level[p] && f != p
    requires f !in s.level && f !in s.owner && f in s.refs && f in s.holders && Count(s, f) == 0 && Held(s, f) == 0
    ensures var b := Grow(s, p, i, f);
            && f in b.owner && b.owner[f] == Slot(p, i) && IsTable(b.phys, p)
            && var c := Pruned1(b, f);
               && c.level == s.level && c.owner == s.owner && c.refs == s.refs && c.holders == s.holders
               && c.kernel == s.kernel
  {
  }

  lemma GrowPrunedMemory(s: State, p: Frame, i: nat, f: Frame)
    requires IsTable(s.phys, p) && i < 512 && EntryAt(s.phys, p, i).Unused? && f != p
    ensures var x := Put(s.phys[f := EmptyTable()], p, i, Used(f, PARENT_FLAGS));
            IsTable(x, p) && Put(x, p, i, Unused) == s.phys[f := EmptyTable()]
  {
    var x := Put(s.phys[f := EmptyTable()], p, i, Used(f, PARENT_FLAGS));
    assert Put(x, p, i, Unused)[p].entries == s.phys[p].entries;
  }

  /**
   `s` came from `s0` by growing the path to `pg` down to depth `d`, and pruning
   from there gives `s0` back.
   */
  ghost predicate Undoable(s0: State, s: State, r: Frame, pg: Page, d: nat)
    requires |pg| == 4
  {
    && d <= 3 && TableAt(s.phys, r, pg, d).Some?
    && (s == s0 || (0 < d && TableEmpty(s.phys, TableAt(s.phys, r, pg, d).value)
                    && Restored(s0, PrunePath(s, r, pg, d))))
  }

  lemma UndoableStart(s0: State, r: Frame, pg: Page, d: nat)
    requires Inv(s0) && Nonempty(s0, {}) && IsRoot(s0, r) && UserPage(pg) && d <= 3
    requires TableAt(s0.phys, r, pg, d).Some?
    ensures PrunePath(s0, r, pg, d) == s0
  {
    if 0 < d {
      PruneParent(s0, r, pg, d);
    }
  }

  lemma UndoablePruned(s0: State, s: State, r: Frame, pg: Page, d: nat)
    requires Inv(s0) && Nonempty(s0, {}) && IsRoot(s0, r) && UserPage(pg) && Undoable(s0, s, r, pg, d)
    ensures Restored(s0, PrunePath(s, r, pg, d))
  {
    if s == s0 {
      UndoableStart(s0, r, pg, d);
    }
  }

  lemma {:induction false} GrowWalk(s: State, r: Frame, pg: Page, p: Frame, i: nat, f: Frame, k: nat)
    requires Inv(s) && IsRoot(s, r) && UserPage(pg) && k <= 3 && f !in s.level
    requires TableSlotOf(s, p, i) && EntryAt(s.phys, p, i).Unused? && IsTable(s.phys, p)
    requires TableAt(s.phys, r, pg, k).Some?
    ensures TableAt(Grow(s, p, i, f).phys, r, pg, k) == TableAt(s.phys, r, pg, k)
  {
    if 0 < k {
      GrowWalk(s, r, pg, p, i, f, k - 1);
      WalkLevel(s, r, pg, k - 1);
    }
  }

  /** One more table on the path can still be undone. */
  lemma GrowUndoable(s0: State, s: State, r: Frame, pg: Page, d: nat, f: Frame)
    requires Inv(s0) && Nonempty(s0, {}) && IsRoot(s0, r) && UserPage(pg) && d < 3
    requires Inv(s) && IsRoot(s, r) && Undoable(s0, s, r, pg, d)
    requires EntryAt(s.phys, TableAt(s.phys, r, pg, d).value, pg[d]).Unused? && f in s.refs && Count(s, f) == 0
    ensures var p := TableAt(s.phys, r, pg, d).value;
            && f !in s.level && p in s.level && 1 < s.level[p] && IsTable(s.phys, p) && pg[d] < 512
            && Undoable(s0, Grow(s, p, pg[d], f), r, pg, d + 1)
            && TableAt(Grow(s, p, pg[d], f).phys, r, pg, d + 1) == Some(f)
  {
    var p := TableAt(s.phys, r, pg, d).value;
    WalkLevel(s, r, pg, d);
    GrowStep(s, p, pg[d], f);
    GrowPruned(s, p, pg[d], f);
    var b := Grow(s, p, pg[d], f);
    GrowWalk(s, r, pg, p, pg[d], f, d);
    assert TableAt(b.phys, r, pg, d + 1) == Some(f);
    var c := Pruned1(b, f);
    assert PrunePath(b, r, pg, d + 1) == PrunePath(c, r, pg, d);
    PruneRespects(s, c, r, pg, d);
    UndoablePruned(s0, s, r, pg, d);
    RestoredTransitive(s0, PrunePath(s, r, pg, d), PrunePath(c, r, pg, d));
  }

  // ------------------------------------------------ the climb of a mapping walk

  /** A frame held outside the tables is left alone. */
  ghost predicate KeepsHeld(s0: State, s: State, f: Frame) {
    0 < Held(s0, f) ==>
      && f in s.phys && f in s0.phys && s.phys[f] == s0.phys[f]
      && Count(s, f) == Count(s0, f) && (f in s.refs <==> f in s0.refs) && (f in s.level <==> f in s0.level)
  }

  /** Everything the mapping walk maintains on its way down from `s0`. */
  ghost predicate Climb(s0: State, s: State, r: Frame, pg: Page, d: nat) {
    && |pg| == 4 && Inv(s) && IsRoot(s, r) && Undoable(s0, s, r, pg, d)
    && Nonempty(s, {TableAt(s.phys, r, pg, d).value}) && Attached(s, {})
    && Quiet(s0, s)
  }

  /** No view, holder or held frame has changed. */
  ghost predicate Quiet(s0: State, s: State) {
    SameViews(s0, s) && s.holders == s0.holders && s.kernel == s0.kernel && forall f :: KeepsHeld(s0, s, f)
  }

  lemma ClimbStart(s: State, r: Frame, pg: Page)
    requires Inv(s) && Nonempty(s, {}) && Attached(s, {}) && IsRoot(s, r) && UserPage(pg)
    ensures Climb(s, s, r, pg, 0)
  {
    forall f
      ensures KeepsHeld(s, s, f)
    {
      assert AccountedAt(s, f);
    }
  }

  /** Meeting an existing table, the walk has created nothing yet. */
  lemma ClimbStay(s0: State, s: State, r: Frame, pg: Page, d: nat)
    requires UserPage(pg) && d <= 3 && Climb(s0, s, r, pg, d) && Nonempty(s0, {})
    requires EntryAt(s.phys, TableAt(s.phys, r, pg, d).value, pg[d]).Used?
    ensures s == s0
    ensures d < 3 ==> TableAt(s.phys, r, pg, d + 1).Some? && Climb(s0, s, r, pg, d + 1)
  {
    hide Quiet;
    WalkLevel(s, r, pg, d);
    if d < 3 {
      assert DownAt(s.phys, s.level, s.owner, TableAt(s.phys, r, pg, d).value, pg[d]);
    }
  }

  lemma ClimbGrow(s0: State, s: State, r: Frame, pg: Page, d: nat, f: Frame)
    requires Inv(s0) && Nonempty(s0, {}) && IsRoot(s0, r) && UserPage(pg) && d < 3 && Climb(s0, s, r, pg, d)
    requires EntryAt(s.phys, TableAt(s.phys, r, pg, d).value, pg[d]).Unused? && f in s.refs && Count(s, f) == 0
    ensures var p := TableAt(s.phys, r, pg, d).value;
            && f !in s.level && p in s.level && 1 < s.level[p] && IsTable(s.phys, p) && pg[d] < 512
            && TableAt(Grow(s, p, pg[d], f).phys, r, pg, d + 1) == Some(f)
            && Climb(s0, Grow(s, p, pg[d], f), r, pg, d + 1)
  {
    var p := TableAt(s.phys, r, pg, d).value;
    WalkLevel(s, r, pg, d);
    GrowUndoable(s0, s, r, pg, d, f);
    GrowStep(s, p, pg[d], f);
    GrowShape(s, p, pg[d], f);
    GrowQuiet(s0, s, p, pg[d], f);
  }

  lemma LinkAttached(s: State, a: State, b: State, p: Frame, i: nat, f: Frame, flags: Flags)
    requires Attached(s, {}) && a.level == s.level && a.owner == s.owner && Linked(a, b, p, i, f, flags)
    ensures Attached(b, {})
  {
  }

  lemma GrowShape(s: State, p: Frame, i: nat, f: Frame)
    requires Inv(s) && TableSlotOf(s, p, i) && EntryAt(s.phys, p, i).Unused? && f in s.refs && Count(s, f) == 0
    requires Nonempty(s, {p}) && Attached(s, {}) && f !in s.level && IsTable(s.phys, p)
    ensures Nonempty(Grow(s, p, i, f), {f}) && Attached(Grow(s, p, i, f), {})
  {
    hide SameViews, Linked, Grow, TableEmpty, TablesOk, UpOk, DownOk, Accounted, Attached;
    GrowStep(s, p, i, f);
    var a := s.(refs := s.refs[f := 1], holders := s.holders[f := 1]);
    LinkNonempty(a, Grow(s, p, i, f), p, i, f, PARENT_FLAGS, {p});
    LinkAttached(s, a, Grow(s, p, i, f), p, i, f, PARENT_FLAGS);
    assert {p} - {p} + {f} == {f};
  }

  lemma GrowQuiet(s0: State, s: State, p: Frame, i: nat, f: Frame)
    requires Quiet(s0, s) && Accounted(s) && IsTable(s.phys, p) && i < 512 && p in s.level && 0 < s.level[p] && f != p
    requires f in s.refs && Count(s, f) == 0 && SameViews(s, Grow(s, p, i, f))
    ensures Quiet(s0, Grow(s, p, i, f))
  {
    var b := Grow(s, p, i, f);
    assert AccountedAt(s, f);
    assert b.holders == s.holders;
    forall g
      ensures KeepsHeld(s0, b, g)
    {
      assert KeepsHeld(s0, s, g) && AccountedAt(s, p);
    }
  }

  lemma PageSetFrom(s0: State, s: State, b: State, r: Frame, pg: Page, e: Entry)
    requires SameViews(s0, s) && PageSet(s, b, r, pg, e)
    ensures PageSet(s0, b, r, pg, e)
  {
    assert Translations(s.phys, s.level)[r] == Leaves(s.phys, r);
    assert Translations(s0.phys, s0.level)[r] == Leaves(s0.phys, r);
    assert Spaces(s.phys, s.level)[r] == SpaceOf(s.phys, r);
    assert Spaces(s0.phys, s0.level)[r] == SpaceOf(s0.phys, r);
  }

  // -------------------------------------------------------- clearing and undoing

  /** A leaf cleared, its reference held outside. */
  function Cleared(s: State, at: Slot): State {
    if IsTableNow(s.phys, at) && EntryAt(s.phys, at.table, at.index).Used?
    then State(Put(s.phys, at.table, at.index, Unused), s.refs, s.level, s.owner,
               Plus(s.holders, EntryAt(s.phys, at.table, at.index).frame), s.kernel)
    else s
  }

  predicate IsTableNow(phys: Memory, at: Slot) {
    at.table in phys && phys[at.table].Table? && |phys[at.table].entries| == 512 && at.index < 512
  }

  function Dropped(s: State, f: Frame): State {
    s.(refs := Minus(s.refs, f), holders := Minus(s.holders, f))
  }

  /** Releasing a held frame that is no table commutes with pruning. */
  lemma {:induction false} PruneDropped(s: State, f: Frame, r: Frame, pg: Page, d: nat)
    requires Inv(s) && 0 < Held(s, f) && IsRoot(s, r) && UserPage(pg) && d <= 3
    ensures PrunePath(Dropped(s, f), r, pg, d) == Dropped(PrunePath(s, r, pg, d), f)
    decreases d
  {
    PrunableDropped(s, f, r, pg, d);
    if Prunable(s, r, pg, d) {
      PruneOnceDropped(s, f, r, pg, d);
      PruneDropped(Pruned1(s, TableAt(s.phys, r, pg, d).value), f, r, pg, d - 1);
    }
  }

  lemma PrunableDropped(s: State, f: Frame, r: Frame, pg: Page, d: nat)
    requires |pg| == 4 && d <= 3
    ensures Prunable(Dropped(s, f), r, pg, d) <==> Prunable(s, r, pg, d)
  {
  }

  lemma PruneOnceDropped(s: State, f: Frame, r: Frame, pg: Page, d: nat)
    requires Inv(s) && 0 < Held(s, f) && IsRoot(s, r) && UserPage(pg) && 0 < d <= 3 && Prunable(s, r, pg, d)
    requires Prunable(Dropped(s, f), r, pg, d)
    ensures var t := TableAt(s.phys, r, pg, d).value;
            && Inv(Pruned1(s, t)) && IsRoot(Pruned1(s, t), r) && 0 < Held(Pruned1(s, t), f)
            && Pruned1(Dropped(s, f), t) == Dropped(Pruned1(s, t), f)
  {
    var t := TableAt(s.phys, r, pg, d).value;
    assert AccountedAt(s, f);
    PruneStep(s, t);
    PruneWalk(s, r, pg, d, 0);
    Pruned1Dropped(s, f, t);
  }

  lemma Pruned1Dropped(s: State, f: Frame, t: Frame)
    requires 0 < Held(s, f) && f in s.refs && Held(s, t) == 0 && t in s.owner
    requires IsTable(s.phys, s.owner[t].table) && s.owner[t].index < 512
    ensures Pruned1(Dropped(s, f), t) == Dropped(Pruned1(s, t), f) && Held(Pruned1(s, t), f) == Held(s, f)
  {
    assert f != t;
    assert Minus(s.refs, f)[t := 0] == Minus(s.refs[t := 0], f);
    assert Minus(s.holders, f)[t := 0] == Minus(s.holders[t := 0], f);
  }

  lemma DroppedRespects(a: State, b: State, f: Frame)
    requires Restored(a, b) && Accounted(a) && 0 < Held(a, f)
    ensures Restored(Dropped(a, f), Dropped(b, f))
  {
    assert AccountedAt(a, f);
  }

  /** What unmapping one page does: clear the leaf, release its frame, prune the path. */
  ghost function Unmapped(s: State, r: Frame, pg: Page): State
    requires |pg| == 4
  {
    match SlotOf(s.phys, r, pg)
    case None => s
    case Some(at) =>
      if LeafOf(s.phys, r, pg).Unused? then s
      else PrunePath(Dropped(Cleared(s, at), LeafOf(s.phys, r, pg).frame), r, pg, 3)
  }

  lemma ClearedRespects(a: State, b: State, r: Frame, pg: Page)
    requires Inv(a) && Restored(a, b) && IsRoot(a, r) && UserPage(pg) && LeafOf(a.phys, r, pg).Used?
    ensures var at := SlotOf(a.phys, r, pg).value;
            && SlotOf(b.phys, r, pg) == Some(at) && LeafOf(b.phys, r, pg) == LeafOf(a.phys, r, pg)
            && Restored(Cleared(a, at), Cleared(b, at))
  {
    RestoredWalk(a, b, r, pg, 3);
    WalkLevel(a, r, pg, 3);
    TableUnnamed(a, TableAt(a.phys, r, pg, 3).value);
  }

  lemma ClearedInv(s: State, r: Frame, pg: Page)
    requires Inv(s) && IsRoot(s, r) && UserPage(pg) && LeafOf(s.phys, r, pg).Used?
    ensures var at := SlotOf(s.phys, r, pg).value;
            var c := Cleared(s, at);
            && Inv(c) && IsRoot(c, r) && IsTableNow(s.phys, at) && LeafSlotOf(s, at.table, at.index)
            && c.phys == Put(s.phys, at.table, at.index, Unused)
            && TableAt(c.phys, r, pg, 3) == Some(at.table)
            && 0 < Held(c, LeafOf(s.phys, r, pg).frame)
  {
    var at := SlotOf(s.phys, r, pg).value;
    SlotIsLeafSlot(s, r, pg);
    LeafIsOk(s, at.table, at.index);
    UnmapLeafInv(s, at.table, at.index);
    PutIsLeafPut(s, Cleared(s, at), at.table, at.index, Unused);
    LeafPutWalk(s, Cleared(s, at), at.table, at.index, Unused, r, pg, 3);
  }

  lemma ClearedOk(s: State, r: Frame, pg: Page)
    requires Inv(s) && IsRoot(s, r) && UserPage(pg) && LeafOf(s.phys, r, pg).Used?
    ensures PageSet(s, Cleared(s, SlotOf(s.phys, r, pg).value), r, pg, Unused)
  {
    ClearedInv(s, r, pg);
    LeafViews(s, Cleared(s, SlotOf(s.phys, r, pg).value), r, pg, Unused);
  }

  /** Unmapping cannot tell restored states apart. */
  lemma UnmapRespects(a: State, b: State, r: Frame, pg: Page)
    requires Inv(a) && Restored(a, b) && IsRoot(a, r) && UserPage(pg)
    ensures Restored(Unmapped(a, r, pg), Unmapped(b, r, pg))
  {
    RestoredWalk(a, b, r, pg, 3);
    if TableAt(a.phys, r, pg, 3).Some? {
      WalkLevel(a, r, pg, 3);
      TableUnnamed(a, TableAt(a.phys, r, pg, 3).value);
      if LeafOf(a.phys, r, pg).Used? {
        var at, f := SlotOf(a.phys, r, pg).value, LeafOf(a.phys, r, pg).frame;
        ClearedRespects(a, b, r, pg);
        ClearedInv(a, r, pg);
        var c := Cleared(a, at);
        DroppedRespects(c, Cleared(b, at), f);
        ReleaseInv(c, f);
        PruneRespects(Dropped(c, f), Dropped(Cleared(b, at), f), r, pg, 3);
      }
    }
  }

  /** `s` is `s0` with a held frame mapped at `pg`, undone by clearing and pruning. */
  ghost predicate MappedFrom(s0: State, s: State, r: Frame, pg: Page, f: Frame)
  {
    && |pg| == 4 && LeafOf(s.phys, r, pg).Used? && LeafOf(s.phys, r, pg).frame == f
    && SlotOf(s.phys, r, pg).Some?
    && Restored(s0, PrunePath(Cleared(s, SlotOf(s.phys, r, pg).value), r, pg, 3))
  }

  /** Unmapping a page just mapped gives back the state before its frame was held. */
  lemma UnmapUndoesMap(s0: State, s: State, r: Frame, pg: Page, f: Frame)
    requires Inv(s0) && Inv(s) && IsRoot(s, r) && UserPage(pg) && MappedFrom(s0, s, r, pg, f) && 0 < Held(s0, f)
    ensures Restored(Dropped(s0, f), Unmapped(s, r, pg))
  {
    var at := SlotOf(s.phys, r, pg).value;
    ClearedInv(s, r, pg);
    var c := Cleared(s, at);
    PruneDropped(c, f, r, pg, 3);
    DroppedRespects(s0, PrunePath(c, r, pg, 3), f);
  }

  // ---------------------------------------------------------- unmapping, moving

  lemma TwiceSame(m: map<Frame, nat>, f: Frame)
    requires f in m
    ensures Minus(Plus(m, f), f) == m
    ensures 0 < m[f] ==> Plus(Minus(m, f), f) == m
  {
  }

  /** Unmapping keeps the invariant, clears the one page and gives back every empty table. */
  lemma UnmappedOk(s: State, r: Frame, pg: Page)
    requires Inv(s) && Nonempty(s, {}) && Attached(s, {}) && IsRoot(s, r) && UserPage(pg)
    requires LeafOf(s.phys, r, pg).Used?
    ensures var b := Unmapped(s, r, pg);
            && Inv(b) && Nonempty(b, {}) && Attached(b, {}) && IsRoot(b, r)
            && PageSet(s, b, r, pg, Unused) && b.holders == s.holders && b.kernel == s.kernel
  {
    var at, f := SlotOf(s.phys, r, pg).value, LeafOf(s.phys, r, pg).frame;
    var d := Dropped(Cleared(s, at), f);
    UnmappedViews(s, r, pg);
    DroppedOk(s, r, pg);
    PrunePathOk(d, r, pg, 3);
  }

  lemma UnmappedViews(s: State, r: Frame, pg: Page)
    requires Inv(s) && Nonempty(s, {}) && Attached(s, {}) && IsRoot(s, r) && UserPage(pg)
    requires LeafOf(s.phys, r, pg).Used?
    ensures PageSet(s, Unmapped(s, r, pg), r, pg, Unused)
  {
    hide Inv, Nonempty, Attached, PageSet;
    var at, f := SlotOf(s.phys, r, pg).value, LeafOf(s.phys, r, pg).frame;
    var d := Dropped(Cleared(s, at), f);
    DroppedOk(s, r, pg);
    PrunePathOk(d, r, pg, 3);
    ClearedOk(s, r, pg);
    PageSetAfter(s, Cleared(s, at), PrunePath(d, r, pg, 3), r, pg);
  }

  lemma PageSetAfter(s: State, c: State, b: State, r: Frame, pg: Page)
    requires PageSet(s, c, r, pg, Unused)
    requires Translations(b.phys, b.level) == Translations(c.phys, c.level)
            && Spaces(b.phys, b.level) == Spaces(c.phys, c.level)
    ensures PageSet(s, b, r, pg, Unused)
  {
  }

  lemma DroppedOk(s: State, r: Frame, pg: Page)
    requires Inv(s) && Nonempty(s, {}) && Attached(s, {}) && IsRoot(s, r) && UserPage(pg)
    requires LeafOf(s.phys, r, pg).Used?
    ensures var at := SlotOf(s.phys, r, pg).value;
            var d := Dropped(Cleared(s, at), LeafOf(s.phys, r, pg).frame);
            && Inv(d) && IsRoot(d, r) && TableAt(d.phys, r, pg, 3) == Some(at.table)
            && Nonempty(d, {at.table}) && Attached(d, {}) && d.holders == s.holders && d.kernel == s.kernel
  {
    var at, f := SlotOf(s.phys, r, pg).value, LeafOf(s.phys, r, pg).frame;
    ClearedInv(s, r, pg);
    var c := Cleared(s, at);
    ReleaseInv(c, f);
    LeafIsOk(s, at.table, at.index);
    TwiceSame(s.holders, f);
    LeafNonempty(s, c, at.table, at.index, Unused, {});
    assert {} + {at.table} == {at.table};
    assert Nonempty(Dropped(c, f), {at.table});
  }

  /** The leaf of `src` carried over to the unused slot of `dst`. */
  function Moved(s: State, src: Slot, dst: Slot): State
    requires IsTableNow(s.phys, src) && IsTableNow(s.phys, dst)
  {
    s.(phys := Put(Put(s.phys, dst.table, dst.index, EntryAt(s.phys, src.table, src.index)),
                   src.table, src.index, Unused))
  }

  /** Both views after a move: `dst` shows what `src` showed, `src` is gone. */
  ghost predicate PageMoved(s: State, b: State, r: Frame, src: Page, dst: Page) {
    && |src| == 4 && LeafOf(s.phys, r, src).Used?
    && r in Spaces(s.phys, s.level) && r in Translations(s.phys, s.level)
    && var e := LeafOf(s.phys, r, src);
       && Translations(b.phys, b.level) ==
          Translations(s.phys, s.level)[r := WithEntry(WithEntry(Leaves(s.phys, r), src, Unused), dst, e)]
       && Spaces(b.phys, b.level) == Spaces(s.phys, s.level)[
            r := WithPage(WithPage(SpaceOf(s.phys, r), src, None), dst, Some(PageView(s.phys, e)))]
  }

  lemma MovedOk(s0: State, s: State, r: Frame, src: Page, dst: Page)
    requires Inv(s0) && Nonempty(s0, {}) && IsRoot(s0, r) && UserPage(src) && UserPage(dst) && src != dst
    requires Climb(s0, s, r, dst, 3) && LeafOf(s.phys, r, dst).Unused? && LeafOf(s.phys, r, src).Used?
    ensures var x, y := SlotOf(s.phys, r, src).value, SlotOf(s.phys, r, dst).value;
            && IsTableNow(s.phys, x) && IsTableNow(s.phys, y)
            && var b := Moved(s, x, y);
               && Inv(b) && IsRoot(b, r) && TableAt(b.phys, r, src, 3) == Some(x.table)
               && Nonempty(b, {x.table}) && Attached(b, {}) && PageMoved(s, b, r, src, dst)
  {
    var x, y := SlotOf(s.phys, r, src).value, SlotOf(s.phys, r, dst).value;
    SlotIsLeafSlot(s, r, src);
    SlotIsLeafSlot(s, r, dst);
    MoveInv(s, r, src, dst);
    MoveNonempty(s, x, y);
  }

  lemma MoveInv(s: State, r: Frame, src: Page, dst: Page)
    requires Inv(s) && IsRoot(s, r) && UserPage(src) && UserPage(dst) && src != dst
    requires LeafOf(s.phys, r, src).Used? && SlotOf(s.phys, r, dst).Some? && LeafOf(s.phys, r, dst).Unused?
    ensures var x, y := SlotOf(s.phys, r, src).value, SlotOf(s.phys, r, dst).value;
            && IsTableNow(s.phys, x) && IsTableNow(s.phys, y) && x != y
            && var b := Moved(s, x, y);
               Inv(b) && TableAt(b.phys, r, src, 3) == Some(x.table) && PageMoved(s, b, r, src, dst)
  {
    var x, y := SlotOf(s.phys, r, src).value, SlotOf(s.phys, r, dst).value;
    var e := LeafOf(s.phys, r, src);
    var c := Cleared(s, x);
    MoveMiddle(s, r, src, dst);
    MapLeafInv(c, y.table, y.index, e.frame, e.flags);
    var b := Moved(s, x, y);
    PutIsLeafPut(c, b, y.table, y.index, e);
    LeafPutWalk(c, b, y.table, y.index, e, r, src, 3);
    ClearedOk(s, r, src);
    LeafViews(c, b, r, dst, e);
    MovePageViews(s, c, b, r, src, dst);
  }

  /** Between the two halves of a move the frame is held outside. */
  lemma MoveMiddle(s: State, r: Frame, src: Page, dst: Page)
    requires Inv(s) && IsRoot(s, r) && UserPage(src) && UserPage(dst) && src != dst
    requires LeafOf(s.phys, r, src).Used? && SlotOf(s.phys, r, dst).Some? && LeafOf(s.phys, r, dst).Unused?
    ensures var x, y := SlotOf(s.phys, r, src).value, SlotOf(s.phys, r, dst).value;
            var e := LeafOf(s.phys, r, src);
            var c := Cleared(s, x);
            && IsTableNow(s.phys, x) && IsTableNow(s.phys, y) && x != y
            && Inv(c) && IsRoot(c, r) && SlotOf(c.phys, r, dst) == Some(y)
                    && TableAt(c.phys, r, src, 3) == Some(x.table)
            && LeafSlotOf(c, y.table, y.index) && EntryAt(c.phys, y.table, y.index).Unused?
            && 0 < Held(c, e.frame) && LeafOk(c.phys, c.level, c.refs, e) && IsTable(c.phys, y.table)
            && PageView(Moved(s, x, y).phys, e) == PageView(s.phys, e)
            && Moved(s, x, y) == c.(phys := Put(c.phys, y.table, y.index, e), holders := Minus(c.holders, e.frame))
  {
    var x, y := SlotOf(s.phys, r, src).value, SlotOf(s.phys, r, dst).value;
    SlotIsLeafSlot(s, r, src);
    SlotIsLeafSlot(s, r, dst);
    LeafIsOk(s, x.table, x.index);
    ClearedInv(s, r, src);
    PutIsLeafPut(s, Cleared(s, x), x.table, x.index, Unused);
    LeafPutWalk(s, Cleared(s, x), x.table, x.index, Unused, r, dst, 3);
    MoveOrder(s, x, y);
  }

  lemma MoveOrder(s: State, x: Slot, y: Slot)
    requires IsTableNow(s.phys, x) && IsTableNow(s.phys, y) && x != y
    requires EntryAt(s.phys, x.table, x.index).Used? && EntryAt(s.phys, x.table, x.index).frame in s.holders
    ensures var e := EntryAt(s.phys, x.table, x.index);
            var c := Cleared(s, x);
            && IsTable(c.phys, y.table)
            && Moved(s, x, y) == c.(phys := Put(c.phys, y.table, y.index, e), holders := Minus(c.holders, e.frame))
  {
    var e := EntryAt(s.phys, x.table, x.index);
    var c := Cleared(s, x);
    TwiceSame(s.holders, e.frame);
    PutsCommute(s.phys, x, Unused, y, e);
  }

  lemma PutsCommute(phys: Memory, x: Slot, a: Entry, y: Slot, b: Entry)
    requires IsTableNow(phys, x) && IsTableNow(phys, y) && x != y
    ensures Put(Put(phys, x.table, x.index, a), y.table, y.index, b)
            == Put(Put(phys, y.table, y.index, b), x.table, x.index, a)
  {
    if x.table == y.table {
      var es := phys[x.table].entries;
      assert es[x.index := a][y.index := b] == es[y.index := b][x.index := a];
    }
  }

  lemma MovePageViews(s: State, c: State, b: State, r: Frame, src: Page, dst: Page)
    requires |src| == 4 && LeafOf(s.phys, r, src).Used?
    requires PageSet(s, c, r, src, Unused) && PageSet(c, b, r, dst, LeafOf(s.phys, r, src))
    requires PageView(b.phys, LeafOf(s.phys, r, src)) == PageView(s.phys, LeafOf(s.phys, r, src))
    ensures PageMoved(s, b, r, src, dst)
  {
    var e := LeafOf(s.phys, r, src);
    assert Translations(c.phys, c.level)[r] == Leaves(c.phys, r);
    assert Spaces(c.phys, c.level)[r] == SpaceOf(c.phys, r);
    UpdateTwice(Translations(s.phys, s.level), Translations(c.phys, c.level), Translations(b.phys, b.level), r,
                WithEntry(Leaves(s.phys, r), src, Unused), WithEntry(Leaves(c.phys, r), dst, e));
    UpdateTwice(Spaces(s.phys, s.level), Spaces(c.phys, c.level), Spaces(b.phys, b.level), r,
                WithPage(SpaceOf(s.phys, r), src, None), WithPage(SpaceOf(c.phys, r), dst, Some(PageView(b.phys, e))));
  }

  lemma UpdateTwice<V>(m: map<Frame, V>, n: map<Frame, V>, o: map<Frame, V>, r: Frame, v: V, w: V)
    requires n == m[r := v] && o == n[r := w]
    ensures o == m[r := w] && n[r] == v
  {
  }

  lemma MoveNonempty(s: State, x: Slot, y: Slot)
    requires TablesOk(s.phys, s.level) && IsTableNow(s.phys, x) && IsTableNow(s.phys, y)
    requires EntryAt(s.phys, x.table, x.index).Used? && Nonempty(s, {y.table})
    ensures Nonempty(Moved(s, x, y), {x.table})
  {
    var e := EntryAt(s.phys, x.table, x.index);
    var a := s.(phys := Put(s.phys, y.table, y.index, e));
    LeafNonempty(s, a, y.table, y.index, e, {y.table});
    assert {y.table} - {y.table} == {};
    var b := Moved(s, x, y);
    forall t | t in b.owner && t != x.table
      ensures !TableEmpty(b.phys, t)
    {
      var j: nat :| j < 512 && EntryAt(a.phys, t, j).Used?;
      assert EntryAt(b.phys, t, j) == EntryAt(a.phys, t, j);
    }
  }
}
