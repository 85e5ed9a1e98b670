/** Copy-on-write: sharing leaves at fork and unsharing them on a write fault. */
module CowSteps {
  import opened Base
  import opened PageTables
  import opened PageSteps
  import opened PageWalk
  import opened SpaceView
  import opened PageEffects
  import opened PagePaths

  function Uncow(flags: Flags): Flags {
    flags.(cow := false, writable := true)
  }

  /** What fork makes of a leaf's flags. */
  function CowFlags(flags: Flags): Flags {
    if flags.writable then flags.(writable := false, cow := true) else flags
  }

  function CowEntry(e: Entry): Entry {
    if e.Used? then Used(e.frame, CowFlags(e.flags)) else Unused
  }

  /** `b` is `s` with the leaf of `pg` rewritten to `e`, which programs cannot see. */
  ghost predicate LeafSwapped(s: State, b: State, r: Frame, pg: Page, e: Entry) {
    && Inv(b) && Spaces(b.phys, b.level) == Spaces(s.phys, s.level)
    && (Nonempty(s, {}) ==> Nonempty(b, {})) && (Attached(s, {}) ==> Attached(b, {}))
    && |pg| == 4 && LeafOf(b.phys, r, pg) == e && OneChanged(s, b, r, pg, e)
    && b.level == s.level && b.owner == s.owner && b.kernel == s.kernel
  }

  /** Rewriting a leaf so that it shows the same page. */
  lemma SwapLeaf(s: State, b: State, r: Frame, pg: Page, e: Entry)
    requires Inv(s) && Inv(b) && IsRoot(s, r) && UserPage(pg) && LeafOf(s.phys, r, pg).Used? && e.Used?
    requires SlotOf(s.phys, r, pg).Some?
    requires var at := SlotOf(s.phys, r, pg).value;
             && IsTableNow(s.phys, at) && b.phys == Put(s.phys, at.table, at.index, e)
             && b.level == s.level && b.owner == s.owner && b.kernel == s.kernel
    requires PageView(b.phys, e) == PageView(s.phys, LeafOf(s.phys, r, pg))
    ensures LeafSwapped(s, b, r, pg, e)
  {
    var at := SlotOf(s.phys, r, pg).value;
    SlotIsLeafSlot(s, r, pg);
    LeafViews(s, b, r, pg, e);
    LeafQuiet(s, b, r, pg, e);
    PutIsLeafPut(s, b, at.table, at.index, e);
    LeafPutTranslation(s, b, r, pg, e);
    assert ChangedAt(s, b, r, pg, e, r, pg);
    if Nonempty(s, {}) {
      LeafNonempty(s, b, at.table, at.index, e, {});
      assert {} - {at.table} == {};
    }
  }

  /** The only reference to a COW frame is this leaf: it becomes writable in place. */
  lemma UpgradeOk(s: State, r: Frame, pg: Page)
    requires Inv(s) && IsRoot(s, r) && UserPage(pg) && LeafOf(s.phys, r, pg).Used?
    requires LeafOf(s.phys, r, pg).flags.cow && Count(s, LeafOf(s.phys, r, pg).frame) == 1
    ensures var at, e := SlotOf(s.phys, r, pg).value, LeafOf(s.phys, r, pg);
            && IsTableNow(s.phys, at)
            && LeafSwapped(s, s.(phys := Put(s.phys, at.table, at.index, Used(e.frame, Uncow(e.flags)))), r, pg,
                           Used(e.frame, Uncow(e.flags)))
  {
    var at, e := SlotOf(s.phys, r, pg).value, LeafOf(s.phys, r, pg);
    SlotIsLeafSlot(s, r, pg);
    LeafIsOk(s, at.table, at.index);
    SetLeafFlagsInv(s, at.table, at.index, Uncow(e.flags));
    SwapLeaf(s, s.(phys := Put(s.phys, at.table, at.index, Used(e.frame, Uncow(e.flags)))), r, pg,
             Used(e.frame, Uncow(e.flags)));
  }

  /** A leaf switched to a fresh copy of its frame; the old reference is then held outside. */
  function Switched(s: State, at: Slot, f: Frame): State
    requires IsTableNow(s.phys, at) && EntryAt(s.phys, at.table, at.index).Used?
  {
    State(Put(s.phys, at.table, at.index, Used(f, Uncow(EntryAt(s.phys, at.table, at.index).flags))), s.refs,
          s.level, s.owner, Minus(Plus(s.holders, EntryAt(s.phys, at.table, at.index).frame), f), s.kernel)
  }

  lemma SwitchOk(s: State, r: Frame, pg: Page, f: Frame)
    requires Inv(s) && IsRoot(s, r) && UserPage(pg) && LeafOf(s.phys, r, pg).Used? && LeafOf(s.phys, r, pg).flags.cow
    requires Fresh(s, f) && f !in s.level && f in s.phys && IsPageData(s.phys[f])
    requires Bytes(s.phys, f) == Bytes(s.phys, LeafOf(s.phys, r, pg).frame)
    ensures var at, e := SlotOf(s.phys, r, pg).value, LeafOf(s.phys, r, pg);
            && IsTableNow(s.phys, at) && e.frame != f && e == EntryAt(s.phys, at.table, at.index)
            && LeafSwapped(s, Switched(s, at, f), r, pg, Used(f, Uncow(e.flags)))
            && 0 < Held(Switched(s, at, f), e.frame)
  {
    var at, e := SlotOf(s.phys, r, pg).value, LeafOf(s.phys, r, pg);
    SlotIsLeafSlot(s, r, pg);
    LeafIsOk(s, at.table, at.index);
    assert AccountedAt(s, f);
    OnlyHeld(s, f);
    assert Names(s.phys, s.level, at, e.frame);
    var b := Switched(s, at, f);
    LeafStepInv(s, at.table, at.index, Used(f, Uncow(e.flags)), b);
    SwapLeaf(s, b, r, pg, Used(f, Uncow(e.flags)));
  }

  /** The copy path end to end: a free frame takes a copy, the leaf and the other references part. */
  function CowCopied(s: State, at: Slot, f: Frame): State
    requires IsTableNow(s.phys, at) && EntryAt(s.phys, at.table, at.index).Used? && f != at.table
    requires EntryAt(s.phys, at.table, at.index).frame in s.phys
  {
    var e := EntryAt(s.phys, at.table, at.index);
    State(Put(s.phys[f := s.phys[e.frame]], at.table, at.index, Used(f, Uncow(e.flags))),
          Minus(s.refs[f := 1], e.frame), s.level, s.owner, s.holders, s.kernel)
  }

  ghost predicate Copyable(s: State, r: Frame, pg: Page, f: Frame) {
    && Inv(s) && IsRoot(s, r) && UserPage(pg) && LeafOf(s.phys, r, pg).Used? && LeafOf(s.phys, r, pg).flags.cow
    && f in s.refs && Count(s, f) == 0
  }

  /** The state after the frame is allocated and filled, before the leaf is switched. */
  function Staged(s: State, f: Frame, bytes: seq<bv8>): State {
    State(s.phys[f := Data(bytes)], s.refs[f := 1], s.level, s.owner, s.holders[f := 1], s.kernel)
  }

  lemma CowFrames(s: State, r: Frame, pg: Page, f: Frame)
    requires Copyable(s, r, pg, f)
    ensures var at, e := SlotOf(s.phys, r, pg).value, LeafOf(s.phys, r, pg);
            && IsTableNow(s.phys, at) && LeafSlotOf(s, at.table, at.index) && e == EntryAt(s.phys, at.table, at.index)
            && e.frame in s.phys && IsPageData(s.phys[e.frame]) && e.frame in s.holders && e.frame in s.refs
            && f != e.frame && f !in s.level && f != at.table && f in s.holders && Held(s, f) == 0
  {
    var at, e := SlotOf(s.phys, r, pg).value, LeafOf(s.phys, r, pg);
    SlotIsLeafSlot(s, r, pg);
    LeafIsOk(s, at.table, at.index);
    assert AccountedAt(s, f);
    OnlyHeld(s, f);
    assert !Names(s.phys, s.level, at, f) && Names(s.phys, s.level, at, e.frame);
  }

  lemma CowStage(s: State, f: Frame, bytes: seq<bv8>)
    requires Inv(s) && f in s.refs && Count(s, f) == 0 && |bytes| == 0x1000
    ensures var c := Staged(s, f, bytes);
            Inv(c) && Fresh(c, f) && Quietly(s, c)
  {
    AllocateInv(s, f);
    var a := s.(refs := s.refs[f := 1], holders := s.holders[f := 1]);
    FillStep(a, f, bytes);
    assert Nonempty(s, {}) ==> Nonempty(a, {});
  }

  lemma CowCopyInv(s: State, r: Frame, pg: Page, f: Frame)
    requires Copyable(s, r, pg, f)
    ensures var at, e := SlotOf(s.phys, r, pg).value, LeafOf(s.phys, r, pg);
            && IsTableNow(s.phys, at) && e == EntryAt(s.phys, at.table, at.index) && f != at.table && e.frame in s.phys
            && var c := Staged(s, f, Bytes(s.phys, e.frame));
               && IsTableNow(c.phys, at) && EntryAt(c.phys, at.table, at.index) == e
               && LeafSwapped(c, Switched(c, at, f), r, pg, Used(f, Uncow(e.flags)))
               && Inv(CowCopied(s, at, f))
               && CowCopied(s, at, f) == Dropped(Switched(c, at, f), e.frame)
  {
    var at, e := SlotOf(s.phys, r, pg).value, LeafOf(s.phys, r, pg);
    CowFrames(s, r, pg, f);
    CowStage(s, f, Bytes(s.phys, e.frame));
    var c := Staged(s, f, Bytes(s.phys, e.frame));
    CowSwitch(s, c, r, pg, f);
    CowCopiedIs(s, at, f);
  }

  lemma CowSwitch(s: State, c: State, r: Frame, pg: Page, f: Frame)
    requires Copyable(s, r, pg, f) && Inv(c) && Fresh(c, f) && f !in s.level
    requires IsPageData(Data(Bytes(s.phys, LeafOf(s.phys, r, pg).frame))) && f != LeafOf(s.phys, r, pg).frame
    requires c == Staged(s, f, Bytes(s.phys, LeafOf(s.phys, r, pg).frame))
    ensures var at, e := SlotOf(s.phys, r, pg).value, LeafOf(s.phys, r, pg);
            && IsTableNow(c.phys, at) && EntryAt(c.phys, at.table, at.index) == e
            && LeafSwapped(c, Switched(c, at, f), r, pg, Used(f, Uncow(e.flags)))
            && Inv(Dropped(Switched(c, at, f), e.frame))
  {
    var at, e := SlotOf(s.phys, r, pg).value, LeafOf(s.phys, r, pg);
    StagedLeaf(s, c, r, pg);
    SwitchOk(c, r, pg, f);
    ReleaseInv(Switched(c, at, f), e.frame);
  }

  lemma StagedLeaf(s: State, c: State, r: Frame, pg: Page)
    requires DownOk(s.phys, s.level, s.owner) && IsRoot(s, r) && UserPage(pg)
    requires forall t | t in s.level :: t in s.phys && t in c.phys && c.phys[t] == s.phys[t]
    ensures SlotOf(c.phys, r, pg) == SlotOf(s.phys, r, pg) && LeafOf(c.phys, r, pg) == LeafOf(s.phys, r, pg)
  {
    SameTablesWalk(s, c, r, pg, 3);
    if TableAt(s.phys, r, pg, 3).Some? {
      WalkLevel(s, r, pg, 3);
    }
  }

  lemma CowCopiedIs(s: State, at: Slot, f: Frame)
    requires IsTableNow(s.phys, at) && EntryAt(s.phys, at.table, at.index).Used? && f != at.table
    requires var e := EntryAt(s.phys, at.table, at.index);
             && e.frame in s.phys && IsPageData(s.phys[e.frame]) && e.frame in s.holders && e.frame != f
             && f in s.holders && Held(s, f) == 0
    ensures var e := EntryAt(s.phys, at.table, at.index);
            var c := Staged(s, f, Bytes(s.phys, e.frame));
            && IsTableNow(c.phys, at) && EntryAt(c.phys, at.table, at.index) == e
            && CowCopied(s, at, f) == Dropped(Switched(c, at, f), e.frame)
  {
    var e := EntryAt(s.phys, at.table, at.index);
    var c := Staged(s, f, Bytes(s.phys, e.frame));
    assert Dropped(Switched(c, at, f), e.frame).holders == s.holders;
  }

  /** The whole copy path is invisible to programs and leaves the page writable. */
  lemma CowCopyOk(s: State, r: Frame, pg: Page, f: Frame)
    requires Copyable(s, r, pg, f) && Nonempty(s, {}) && Attached(s, {})
    ensures var at, e := SlotOf(s.phys, r, pg).value, LeafOf(s.phys, r, pg);
            && IsTableNow(s.phys, at) && e == EntryAt(s.phys, at.table, at.index) && f != at.table && e.frame in s.phys
            && LeafSwapped(s, CowCopied(s, at, f), r, pg, Used(f, Uncow(e.flags)))
  {
    var at, e := SlotOf(s.phys, r, pg).value, LeafOf(s.phys, r, pg);
    CowStaged(s, r, pg, f);
    CowCopyInv(s, r, pg, f);
    var c := Staged(s, f, Bytes(s.phys, e.frame));
    SwapAfter(s, c, Switched(c, at, f), CowCopied(s, at, f), r, pg, Used(f, Uncow(e.flags)));
  }

  lemma CowStaged(s: State, r: Frame, pg: Page, f: Frame)
    requires Copyable(s, r, pg, f)
    ensures var c := Staged(s, f, Bytes(s.phys, LeafOf(s.phys, r, pg).frame));
            Quietly(s, c) && SameTranslation(s, c)
  {
    CowFrames(s, r, pg, f);
    CowStage(s, f, Bytes(s.phys, LeafOf(s.phys, r, pg).frame));
    StagedTranslation(s, f, Bytes(s.phys, LeafOf(s.phys, r, pg).frame));
  }

  lemma StagedTranslation(s: State, f: Frame, bytes: seq<bv8>)
    requires TablesOk(s.phys, s.level) && DownOk(s.phys, s.level, s.owner) && f !in s.level
    ensures SameTranslation(s, Staged(s, f, bytes))
  {
    DataTranslation(s, Staged(s, f, bytes));
  }

  /** Same tables, and programs see the same. */
  ghost predicate Quietly(s: State, c: State) {
    && Spaces(c.phys, c.level) == Spaces(s.phys, s.level) && (Nonempty(s, {}) ==> Nonempty(c, {}))
    && c.level == s.level && c.owner == s.owner && c.kernel == s.kernel
  }

  lemma SwapAfter(s: State, c: State, d: State, b: State, r: Frame, pg: Page, e: Entry)
    requires Quietly(s, c) && SameTranslation(s, c) && Inv(b)
    requires b == d.(refs := b.refs, holders := b.holders) && LeafSwapped(c, d, r, pg, e)
    ensures LeafSwapped(s, b, r, pg, e)
  {
    forall q, pg'
      ensures ChangedAt(s, b, r, pg, e, q, pg')
    {
      assert ChangedAt(c, d, r, pg, e, q, pg') && SameLeaf(s, c, q, pg');
    }
  }
}
