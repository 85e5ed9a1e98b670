/** Taking apart the tree below a table, and what that leaves of the other spaces. */
module DestroySteps {
  import opened Base
  import opened PageTables
  import opened PageSteps
  import opened PageWalk
  import opened SpaceView
  import opened PageEffects
  import opened PagePaths

  /** A table that is gone hung below `t`. */
  ghost predicate GoneAt(s: State, t: Frame, gone: set<Frame>, g: Frame) {
    g in gone ==> g in s.owner && (s.owner[g].table == t || s.owner[g].table in gone)
  }

  ghost predicate PhysKept(x: Memory, y: Memory, touched: set<Frame>) {
    x.Keys == y.Keys && forall f | f in x && f !in touched :: y[f] == x[f]
  }

  /** `b` is `s` without the tables in `gone`, which all hung below `t`. */
  ghost predicate Removal(s: State, b: State, t: Frame, gone: set<Frame>) {
    && b.level == s.level - gone && b.owner == s.owner - gone
    && b.holders == s.holders && b.kernel == s.kernel
    && (forall g :: GoneAt(s, t, gone, g))
    && PhysKept(s.phys, b.phys, gone + {t})
  }

  /** `b` is `s` without the unowned table `t` and the tables below it. */
  ghost predicate Destroyed(s: State, b: State, t: Frame, gone: set<Frame>) {
    && b.level == s.level - (gone + {t}) && b.owner == s.owner - gone
    && b.holders == s.holders && b.kernel == s.kernel
    && (forall g :: GoneAt(s, t, gone, g))
    && PhysKept(s.phys, b.phys, gone + {t})
  }

  lemma NothingRemoved(s: State, t: Frame)
    ensures Removal(s, s, t, {})
  {
  }

  /** A leaf of `t` cleared and its frame released. */
  lemma RemovalLeaf(s0: State, s: State, t: Frame, gone: set<Frame>, i: nat)
    requires Inv(s) && LeafSlotOf(s, t, i) && EntryAt(s.phys, t, i).Used? && Removal(s0, s, t, gone)
    ensures IsTableNow(s.phys, Slot(t, i))
    ensures var c := Cleared(s, Slot(t, i));
            && Inv(c) && 0 < Held(c, EntryAt(s.phys, t, i).frame)
            && Removal(s0, Dropped(c, EntryAt(s.phys, t, i).frame), t, gone)
  {
    var f := EntryAt(s.phys, t, i).frame;
    LeafIsOk(s, t, i);
    UnmapLeafInv(s, t, i);
    TwiceSame(s.holders, f);
  }

  /** A child of `t` detached and destroyed. */
  lemma RemovalChild(s0: State, s: State, b: State, t: Frame, gone: set<Frame>, child: Frame, below: set<Frame>)
    requires Removal(s0, s, t, gone) && child in s.owner && s.owner[child].table == t
    requires IsTable(s.phys, t) && s.owner[child].index < 512
    requires Destroyed(Detach(s, child), b, child, below)
    ensures Removal(s0, b, t, gone + {child} + below)
  {
    var d := Detach(s, child);
    var all := gone + {child} + below;
    assert b.level == s0.level - all;
    assert b.owner == s0.owner - all;
    forall g
      ensures GoneAt(s0, t, all, g)
    {
      assert GoneAt(s0, t, gone, g) && GoneAt(d, child, below, g);
    }
    assert PhysKept(s.phys, d.phys, {t});
    PhysKeptTwice(s0.phys, s.phys, b.phys, t, gone, child, below, d.phys);
  }

  lemma PhysKeptTwice(x: Memory, y: Memory, z: Memory, t: Frame, gone: set<Frame>, child: Frame, below: set<Frame>,
      w: Memory)
    requires PhysKept(x, y, gone + {t}) && PhysKept(y, w, {t}) && PhysKept(w, z, below + {child})
    ensures PhysKept(x, z, gone + {child} + below + {t})
  {
  }

  /** An emptied, unowned table given up and its frame released. */
  function GivenUp(s: State, t: Frame): State {
    State(s.phys, s.refs[t := 0], s.level - {t}, s.owner, s.holders[t := 0], s.kernel)
  }

  lemma GiveUpInv(s: State, t: Frame)
    requires Inv(s) && Loose(s, t) && (s.level[t] < 4 ==> TableEmpty(s.phys, t))
    ensures Inv(GivenUp(s, t)) && t in s.refs && s.refs[t] == 1 && GivenUp(s, t).holders == s.holders
  {
    DiscardInv(s, t);
    var e := Discard(s, t);
    TableUnnamed(s, t);
    ReleaseInv(e, t);
    assert GivenUp(s, t) == e.(refs := Minus(e.refs, t), holders := Minus(e.holders, t));
    assert s.holders[t := 0] == s.holders;
  }

  lemma RemovalGivenUp(s0: State, s: State, t: Frame, gone: set<Frame>)
    requires Removal(s0, s, t, gone) && GivenUp(s, t).holders == s.holders
    ensures Destroyed(s0, GivenUp(s, t), t, gone)
  {
    assert s0.level - gone - {t} == s0.level - (gone + {t});
  }

  /** The tables that are gone were all below `t`, so an unowned table is none of them. */
  lemma UnownedStays(s: State, t: Frame, gone: set<Frame>, u: Frame)
    requires (forall g :: GoneAt(s, t, gone, g)) && u !in s.owner
    ensures u !in gone
  {
    assert GoneAt(s, t, gone, u);
  }

  // ------------------------------------------------------- the spaces that remain

  /** A walk from another root meets no table that is gone. */
  lemma {:induction false} OtherWalk(s: State, b: State, r: Frame, gone: set<Frame>, q: Frame, pg: Page, d: nat)
    requires Inv(s) && Destroyed(s, b, r, gone) && IsRoot(s, r) && IsRoot(s, q) && q != r && UserPage(pg) && d <= 3
    ensures TableAt(b.phys, q, pg, d) == TableAt(s.phys, q, pg, d)
    ensures TableAt(s.phys, q, pg, d).Some? ==> TableAt(s.phys, q, pg, d).value !in gone + {r}
  {
    if d == 0 {
      RootUnowned(s, q);
      UnownedStays(s, r, gone, q);
    } else {
      OtherWalk(s, b, r, gone, q, pg, d - 1);
      if TableAt(s.phys, q, pg, d - 1).Some? {
        WalkLevel(s, q, pg, d - 1);
        var t := TableAt(s.phys, q, pg, d - 1).value;
        assert DownAt(s.phys, s.level, s.owner, t, pg[d - 1]);
        if TableAt(s.phys, q, pg, d).Some? {
          assert GoneAt(s, r, gone, TableAt(s.phys, q, pg, d).value);
        }
      }
    }
  }

  lemma OtherLeaf(s: State, b: State, r: Frame, gone: set<Frame>, q: Frame, pg: Page)
    requires Inv(s) && Destroyed(s, b, r, gone) && IsRoot(s, r) && IsRoot(s, q) && q != r && UserPage(pg)
    ensures SameLeaf(s, b, q, pg)
  {
    OtherWalk(s, b, r, gone, q, pg, 3);
    if TableAt(s.phys, q, pg, 3).Some? {
      WalkLevel(s, q, pg, 3);
    }
  }

  lemma DestroyedData(s: State, b: State, r: Frame, gone: set<Frame>)
    requires Inv(s) && Destroyed(s, b, r, gone) && IsRoot(s, r)
    ensures SameData(s, b)
  {
    forall slot
      ensures DataAt(s, b, slot)
    {
      assert LeafAtOk(s.phys, s.level, s.refs, slot);
      if LeafEntry(s.phys, s.level, slot).Used? {
        var f := LeafEntry(s.phys, s.level, slot).frame;
        assert GoneAt(s, r, gone, f) && UpAt(s.phys, s.level, s.owner, f);
      }
    }
  }

  lemma OtherSpace(s: State, b: State, r: Frame, gone: set<Frame>, q: Frame)
    requires Inv(s) && Destroyed(s, b, r, gone) && IsRoot(s, r) && IsRoot(s, q) && q != r && SameData(s, b)
    ensures SpaceOf(b.phys, q) == SpaceOf(s.phys, q) && Leaves(b.phys, q) == Leaves(s.phys, q)
  {
    forall pg
      ensures SameLeaf(s, b, q, pg)
    {
      if UserPage(pg) {
        OtherLeaf(s, b, r, gone, q, pg);
      }
    }
    SameSpaceOf(s, b, q);
    forall pg | UserPage(pg)
      ensures LeafOf(b.phys, q, pg) == LeafOf(s.phys, q, pg)
    {
      assert SameLeaf(s, b, q, pg);
    }
  }

  lemma RootsAfter(s: State, b: State, r: Frame, gone: set<Frame>, q: Frame)
    requires Inv(s) && Destroyed(s, b, r, gone) && IsRoot(s, r)
    ensures IsRoot(b, q) <==> IsRoot(s, q) && q != r
  {
    if IsRoot(s, q) {
      RootUnowned(s, q);
      UnownedStays(s, r, gone, q);
    }
  }

  /** Destroying a space removes it and changes no other, neither its leaf map nor what its program sees. */
  lemma DestroyedViews(s: State, b: State, r: Frame, gone: set<Frame>)
    requires Inv(s) && Destroyed(s, b, r, gone) && IsRoot(s, r)
    ensures Spaces(b.phys, b.level) == Spaces(s.phys, s.level) - {r}
    ensures Translations(b.phys, b.level) == Translations(s.phys, s.level) - {r}
  {
    DestroyedData(s, b, r, gone);
    forall q
      ensures q in b.level && b.level[q] == 4 <==> (q in s.level && s.level[q] == 4 && q != r)
    {
      RootsAfter(s, b, r, gone, q);
    }
    forall q | q in s.level && s.level[q] == 4 && q != r
      ensures SpaceOf(b.phys, q) == SpaceOf(s.phys, q) && Leaves(b.phys, q) == Leaves(s.phys, q)
    {
      OtherSpace(s, b, r, gone, q);
    }
    SpacesWithout(s.phys, s.level, b.phys, b.level, r);
  }

  lemma SpacesWithout(x: Memory, l: map<Frame, nat>, y: Memory, m: map<Frame, nat>, r: Frame)
    requires forall q :: q in m && m[q] == 4 <==> (q in l && l[q] == 4 && q != r)
    requires forall q | q in l && l[q] == 4 && q != r :: SpaceOf(y, q) == SpaceOf(x, q) && Leaves(y, q) == Leaves(x, q)
    ensures Spaces(y, m) == Spaces(x, l) - {r} && Translations(y, m) == Translations(x, l) - {r}
  {
    hide SpaceOf, Leaves;
    forall q | q in Spaces(y, m)
      ensures q in Spaces(x, l) - {r} && Spaces(y, m)[q] == (Spaces(x, l) - {r})[q]
    {
    }
    TranslationsWithout(x, l, y, m, r);
  }

  lemma TranslationsWithout(x: Memory, l: map<Frame, nat>, y: Memory, m: map<Frame, nat>, r: Frame)
    requires forall q :: q in m && m[q] == 4 <==> (q in l && l[q] == 4 && q != r)
    requires forall q | q in l && l[q] == 4 && q != r :: Leaves(y, q) == Leaves(x, q)
    ensures Translations(y, m) == Translations(x, l) - {r}
  {
    hide Leaves;
    forall q | q in Translations(y, m)
      ensures q in Translations(x, l) - {r} && Translations(y, m)[q] == (Translations(x, l) - {r})[q]
    {
    }
  }

  lemma DestroyedShape(s: State, b: State, r: Frame, gone: set<Frame>)
    requires Inv(s) && Destroyed(s, b, r, gone) && IsRoot(s, r)
    ensures Attached(s, {}) ==> Attached(b, {})
    ensures Nonempty(s, {}) ==> Nonempty(b, {})
  {
    RootUnowned(s, r);
    if Nonempty(s, {}) {
      forall t | t in b.owner
        ensures !TableEmpty(b.phys, t)
      {
        OwnedTable(s, t);
        SameEmptiness(s.phys, b.phys, t);
      }
    }
  }
}
