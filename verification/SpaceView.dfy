/**
 Two views of the address spaces. `Translations` is the leaf map of every space.
 `Spaces` is what user programs can tell apart: the bytes of each page and
 whether they may reach, write and execute it, with frames and copy-on-write marks
 forgotten.
 */
module SpaceView {
  import opened Base
  import opened PageTables
  import opened PageWalk

  /** A page as a program sees it. */
  datatype UserPageView = UserPageView(bytes: seq<bv8>, writable: bool, executable: bool, user: bool)

  type Space = imap<Page, UserPageView>

  function Bytes(phys: Memory, f: Frame): seq<bv8> {
    if f in phys && phys[f].Data? then phys[f].bytes else []
  }

  function PageView(phys: Memory, e: Entry): UserPageView
    requires e.Used?
  {
    UserPageView(Bytes(phys, e.frame), e.flags.writable || e.flags.cow, !e.flags.noExecute, e.flags.user)
  }

  ghost function Leaves(phys: Memory, r: Frame): imap<Page, Entry> {
    imap pg | UserPage(pg) && LeafOf(phys, r, pg).Used? :: LeafOf(phys, r, pg)
  }

  ghost function Translations(phys: Memory, level: map<Frame, nat>): (m: map<Frame, imap<Page, Entry>>)
    ensures forall r :: r in m <==> r in level && level[r] == 4
  {
    map r | r in level && level[r] == 4 :: Leaves(phys, r)
  }

  ghost function SpaceOf(phys: Memory, r: Frame): Space {
    imap pg | UserPage(pg) && LeafOf(phys, r, pg).Used? :: PageView(phys, LeafOf(phys, r, pg))
  }

  ghost function Spaces(phys: Memory, level: map<Frame, nat>): (m: map<Frame, Space>)
    ensures forall r :: r in m <==> r in level && level[r] == 4
  {
    map r | r in level && level[r] == 4 :: SpaceOf(phys, r)
  }

  ghost predicate SameRoots(s: State, b: State) {
    forall r :: IsRoot(b, r) <==> IsRoot(s, r)
  }

  /** The bytes behind a leaf slot are untouched. */
  ghost predicate DataAt(s: State, b: State, slot: Slot) {
    LeafEntry(s.phys, s.level, slot).Used? ==>
      Bytes(b.phys, LeafEntry(s.phys, s.level, slot).frame) == Bytes(s.phys, LeafEntry(s.phys, s.level, slot).frame)
  }

  ghost predicate SameData(s: State, b: State) {
    forall slot :: DataAt(s, b, slot)
  }

  lemma SameRootKeys(s: State, b: State)
    requires SameRoots(s, b)
    ensures Translations(b.phys, b.level).Keys == Translations(s.phys, s.level).Keys
            && Spaces(b.phys, b.level).Keys == Spaces(s.phys, s.level).Keys
  {
    forall r
      ensures r in Translations(b.phys, b.level) <==> r in Translations(s.phys, s.level)
      ensures r in Spaces(b.phys, b.level) <==> r in Spaces(s.phys, s.level)
    {
      assert IsRoot(b, r) <==> IsRoot(s, r);
    }
  }

  lemma SpacesUpdate(x: Memory, l: map<Frame, nat>, y: Memory, m: map<Frame, nat>, r: Frame)
    requires Spaces(y, m).Keys == Spaces(x, l).Keys && r in Spaces(x, l)
    requires forall q | q in l && l[q] == 4 && q != r :: SpaceOf(y, q) == SpaceOf(x, q)
    ensures Spaces(y, m) == Spaces(x, l)[r := SpaceOf(y, r)]
  {
  }

  lemma TranslationsUpdate(x: Memory, l: map<Frame, nat>, y: Memory, m: map<Frame, nat>, r: Frame)
    requires Translations(y, m).Keys == Translations(x, l).Keys && r in Translations(x, l)
    requires forall q | q in l && l[q] == 4 && q != r :: Leaves(y, q) == Leaves(x, q)
    ensures Translations(y, m) == Translations(x, l)[r := Leaves(y, r)]
  {
  }

  lemma SameLeavesOf(s: State, b: State, r: Frame)
    requires SameTranslation(s, b) && IsRoot(s, r)
    ensures Leaves(b.phys, r) == Leaves(s.phys, r)
  {
    forall pg | UserPage(pg)
      ensures LeafOf(b.phys, r, pg) == LeafOf(s.phys, r, pg)
    {
      assert SameLeaf(s, b, r, pg);
    }
  }

  lemma SameTranslations(s: State, b: State)
    requires SameTranslation(s, b) && SameRoots(s, b)
    ensures Translations(b.phys, b.level) == Translations(s.phys, s.level)
  {
    forall r | r in Translations(s.phys, s.level)
      ensures r in Translations(b.phys, b.level) && Translations(b.phys, b.level)[r] == Translations(s.phys, s.level)[r]
    {
      assert IsRoot(b, r) <==> IsRoot(s, r);
      SameLeavesOf(s, b, r);
    }
    SameRootKeys(s, b);
  }

  lemma SameSpaceOf(s: State, b: State, r: Frame)
    requires DownOk(s.phys, s.level, s.owner) && SameData(s, b) && IsRoot(s, r)
    requires forall pg :: SameLeaf(s, b, r, pg)
    ensures SpaceOf(b.phys, r) == SpaceOf(s.phys, r)
  {
    forall pg | UserPage(pg)
      ensures ViewOf(b.phys, LeafOf(b.phys, r, pg)) == ViewOf(s.phys, LeafOf(s.phys, r, pg))
    {
      assert SameLeaf(s, b, r, pg);
      if LeafOf(s.phys, r, pg).Used? {
        SlotIsLeafSlot(s, r, pg);
        assert DataAt(s, b, SlotOf(s.phys, r, pg).value);
      }
    }
    SameViewsSameSpace(s.phys, b.phys, r);
  }

  /** A space is its pages' views. */
  lemma SameViewsSameSpace(x: Memory, y: Memory, r: Frame)
    requires forall pg | UserPage(pg) :: ViewOf(y, LeafOf(y, r, pg)) == ViewOf(x, LeafOf(x, r, pg))
    ensures SpaceOf(y, r) == SpaceOf(x, r)
  {
  }

  /** Equal translations over untouched bytes: programs cannot tell the states apart. */
  lemma SameSpaces(s: State, b: State)
    requires DownOk(s.phys, s.level, s.owner) && SameTranslation(s, b) && SameRoots(s, b) && SameData(s, b)
    ensures Spaces(b.phys, b.level) == Spaces(s.phys, s.level)
  {
    forall r | r in Spaces(s.phys, s.level)
      ensures r in Spaces(b.phys, b.level) && Spaces(b.phys, b.level)[r] == Spaces(s.phys, s.level)[r]
    {
      assert IsRoot(b, r) <==> IsRoot(s, r);
      SameSpaceOf(s, b, r);
    }
    SameRootKeys(s, b);
  }

  /** A leaf map with one page set, or cleared by an unused entry. */
  ghost function WithEntry(m: imap<Page, Entry>, pg: Page, e: Entry): imap<Page, Entry> {
    if e.Used? then m[pg := e] else imap p | p in m && p != pg :: m[p]
  }

  ghost function WithPage(m: Space, pg: Page, view: Option<UserPageView>): Space {
    if view.Some? then m[pg := view.value] else imap p | p in m && p != pg :: m[p]
  }

  lemma OneTranslation(s: State, b: State, r: Frame, pg: Page, e: Entry)
    requires OneChanged(s, b, r, pg, e) && SameRoots(s, b) && IsRoot(s, r) && UserPage(pg)
    ensures Translations(b.phys, b.level) == Translations(s.phys, s.level)[r := WithEntry(Leaves(s.phys, r), pg, e)]
  {
    OneLeaves(s, b, r, pg, e);
    SameRootKeys(s, b);
    forall q | IsRoot(s, q) && q != r
      ensures Leaves(b.phys, q) == Leaves(s.phys, q)
    {
      OtherLeaves(s, b, r, pg, e, q);
    }
    TranslationsUpdate(s.phys, s.level, b.phys, b.level, r);
  }

  lemma OneLeaves(s: State, b: State, r: Frame, pg: Page, e: Entry)
    requires OneChanged(s, b, r, pg, e) && IsRoot(s, r) && UserPage(pg)
    ensures Leaves(b.phys, r) == WithEntry(Leaves(s.phys, r), pg, e)
  {
    forall pg' | UserPage(pg')
      ensures LeafOf(b.phys, r, pg') == if pg' == pg then e else LeafOf(s.phys, r, pg')
    {
      assert ChangedAt(s, b, r, pg, e, r, pg');
    }
  }

  lemma OtherLeaves(s: State, b: State, r: Frame, pg: Page, e: Entry, q: Frame)
    requires OneChanged(s, b, r, pg, e) && IsRoot(s, q) && q != r
    ensures Leaves(b.phys, q) == Leaves(s.phys, q)
  {
    forall pg' | UserPage(pg')
      ensures LeafOf(b.phys, q, pg') == LeafOf(s.phys, q, pg')
    {
      assert ChangedAt(s, b, r, pg, e, q, pg');
    }
  }

  /** The view of an entry: nothing for an unused one. */
  function ViewOf(phys: Memory, e: Entry): Option<UserPageView> {
    if e.Used? then Some(PageView(phys, e)) else None
  }

  /** Bytes untouched behind every leaf slot but one. */
  ghost predicate SameDataBut(s: State, b: State, at: Slot) {
    forall slot | slot != at :: DataAt(s, b, slot)
  }

  lemma OneView(s: State, b: State, r: Frame, pg: Page, e: Entry, q: Frame, pg': Page)
    requires DownOk(s.phys, s.level, s.owner) && OneChanged(s, b, r, pg, e) && IsRoot(s, r) && UserPage(pg)
    requires SlotOf(s.phys, r, pg).Some? && SameDataBut(s, b, SlotOf(s.phys, r, pg).value)
    requires IsRoot(s, q) && UserPage(pg')
    ensures ViewOf(b.phys, LeafOf(b.phys, q, pg')) ==
            if q == r && pg' == pg then ViewOf(b.phys, e) else ViewOf(s.phys, LeafOf(s.phys, q, pg'))
  {
    assert ChangedAt(s, b, r, pg, e, q, pg');
    if LeafOf(s.phys, q, pg').Used? && !(q == r && pg' == pg) {
      SlotIsLeafSlot(s, q, pg');
      if SlotOf(s.phys, q, pg') == SlotOf(s.phys, r, pg) {
        SlotUnique(s, q, pg', r, pg);
      }
      assert DataAt(s, b, SlotOf(s.phys, q, pg').value);
    }
  }

  lemma OneSpaceOf(s: State, b: State, r: Frame, pg: Page, e: Entry)
    requires DownOk(s.phys, s.level, s.owner) && OneChanged(s, b, r, pg, e) && IsRoot(s, r) && UserPage(pg)
    requires SlotOf(s.phys, r, pg).Some? && SameDataBut(s, b, SlotOf(s.phys, r, pg).value)
    ensures SpaceOf(b.phys, r) == WithPage(SpaceOf(s.phys, r), pg, ViewOf(b.phys, e))
  {
    forall pg' | UserPage(pg')
      ensures ViewOf(b.phys, LeafOf(b.phys, r, pg')) ==
              if pg' == pg then ViewOf(b.phys, e) else ViewOf(s.phys, LeafOf(s.phys, r, pg'))
    {
      OneView(s, b, r, pg, e, r, pg');
    }
    OneViewOneSpace(s.phys, b.phys, r, pg, ViewOf(b.phys, e));
  }

  lemma OneViewOneSpace(x: Memory, y: Memory, r: Frame, pg: Page, view: Option<UserPageView>)
    requires UserPage(pg)
    requires forall pg' | UserPage(pg') ::
               ViewOf(y, LeafOf(y, r, pg')) == if pg' == pg then view else ViewOf(x, LeafOf(x, r, pg'))
    ensures SpaceOf(y, r) == WithPage(SpaceOf(x, r), pg, view)
  {
    var before, after := SpaceOf(x, r), SpaceOf(y, r);
    SpaceIsViews(x, r);
    SpaceIsViews(y, r);
    hide LeafOf, ViewOf, SpaceOf;
    assert after == WithPage(before, pg, view);
  }

  /** Page by page, a space is the views of its leaves. */
  lemma SpaceIsViews(phys: Memory, r: Frame)
    ensures forall pg :: pg in SpaceOf(phys, r) <==> UserPage(pg) && ViewOf(phys, LeafOf(phys, r, pg)).Some?
    ensures forall pg | pg in SpaceOf(phys, r) :: SpaceOf(phys, r)[pg] == ViewOf(phys, LeafOf(phys, r, pg)).value
  {
  }

  lemma OtherSpaceOf(s: State, b: State, r: Frame, pg: Page, e: Entry, q: Frame)
    requires DownOk(s.phys, s.level, s.owner) && OneChanged(s, b, r, pg, e) && IsRoot(s, r) && UserPage(pg)
    requires SlotOf(s.phys, r, pg).Some? && SameDataBut(s, b, SlotOf(s.phys, r, pg).value) && IsRoot(s, q) && q != r
    ensures SpaceOf(b.phys, q) == SpaceOf(s.phys, q)
  {
    forall pg' | UserPage(pg')
      ensures ViewOf(b.phys, LeafOf(b.phys, q, pg')) == ViewOf(s.phys, LeafOf(s.phys, q, pg'))
    {
      OneView(s, b, r, pg, e, q, pg');
    }
    SameViewsSameSpace(s.phys, b.phys, q);
  }

  /** One leaf rewritten: one page of one space changes for programs. */
  lemma OneSpace(s: State, b: State, r: Frame, pg: Page, e: Entry)
    requires DownOk(s.phys, s.level, s.owner) && OneChanged(s, b, r, pg, e) && SameRoots(s, b)
    requires IsRoot(s, r) && UserPage(pg)
    requires SlotOf(s.phys, r, pg).Some? && SameDataBut(s, b, SlotOf(s.phys, r, pg).value)
    ensures r in Spaces(s.phys, s.level)
    ensures Spaces(b.phys, b.level) ==
            Spaces(s.phys, s.level)[r := WithPage(Spaces(s.phys, s.level)[r], pg, ViewOf(b.phys, e))]
  {
    OneSpaceOf(s, b, r, pg, e);
    SameRootKeys(s, b);
    forall q | IsRoot(s, q) && q != r
      ensures SpaceOf(b.phys, q) == SpaceOf(s.phys, q)
    {
      OtherSpaceOf(s, b, r, pg, e, q);
    }
    SpacesUpdate(s.phys, s.level, b.phys, b.level, r);
  }

  /** Rewriting a page with what it already shows changes nothing for programs. */
  lemma SameViewSameSpace(m: map<Frame, Space>, r: Frame, pg: Page, view: UserPageView)
    requires r in m && pg in m[r] && m[r][pg] == view
    ensures m[r := WithPage(m[r], pg, Some(view))] == m
  {
    assert m[r][pg := view] == m[r];
  }
}
