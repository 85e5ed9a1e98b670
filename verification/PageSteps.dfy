/**
 The single-slot updates that the mapper's methods are made of, each shown to
 keep the page-table invariant.
 */
module PageSteps {
  import opened Base
  import opened PageTables

  // ------------------------------------------------------- what a step preserves

  /** References held by leaves and by tables, seen from the counts. */
  function Inside(s: State, f: Frame): int {
    Count(s, f) as int - Held(s, f)
  }

  ghost predicate SameFrames(a: State, b: State) {
    b.refs.Keys == a.refs.Keys && b.holders.Keys == a.holders.Keys
  }

  lemma AccountLeafChange(a: State, b: State, at: Slot, x: Entry, y: Entry)
    requires Accounted(a) && SameFrames(a, b) && b.level == a.level && LeafChanged(a, b, at, x, y)
    requires forall f :: Inside(b, f) + NamesFrame(x, f) == Inside(a, f) + NamesFrame(y, f)
    requires forall f | f in b.level :: f in b.holders && b.holders[f] == 0
    ensures Accounted(b)
  {
    forall f
      ensures AccountedAt(b, f)
    {
      assert AccountedAt(a, f);
      LeafCountChanged(a, b, at, x, y, f);
      assert Inside(b, f) + NamesFrame(x, f) == Inside(a, f) + NamesFrame(y, f);
    }
  }

  ghost predicate SameLeaves(a: State, b: State) {
    forall slot :: LeafEntry(b.phys, b.level, slot) == LeafEntry(a.phys, a.level, slot)
  }

  lemma AccountTableChange(a: State, b: State)
    requires Accounted(a) && SameFrames(a, b) && SameLeaves(a, b)
    requires forall f :: Inside(b, f) - One(f in b.level) == Inside(a, f) - One(f in a.level)
    requires forall f | f in b.level :: f in b.refs && f in b.holders && b.holders[f] == 0
    ensures Accounted(b)
  {
    forall f
      ensures AccountedAt(b, f)
    {
      assert AccountedAt(a, f);
      SameLeavesSameSlots(a, b, f);
      assert Inside(b, f) - One(f in b.level) == Inside(a, f) - One(f in a.level);
    }
  }

  ghost predicate Shape(phys: Memory, level: map<Frame, nat>, owner: map<Frame, Slot>) {
    TablesOk(phys, level) && DownOk(phys, level, owner) && UpOk(phys, level, owner)
  }

  lemma ShapeLeafChange(phys: Memory, level: map<Frame, nat>, owner: map<Frame, Slot>, t: Frame, i: nat, e: Entry)
    requires Shape(phys, level, owner) && t in level && level[t] == 1 && i < 512
    ensures Shape(Put(phys, t, i, e), level, owner)
  {
    var b := Put(phys, t, i, e);
    forall u, j: nat
      ensures DownAt(b, level, owner, u, j)
    {
      assert DownAt(phys, level, owner, u, j);
    }
    forall c
      ensures UpAt(b, level, owner, c)
    {
      assert UpAt(phys, level, owner, c);
    }
  }

  lemma KernelPut(phys: Memory, level: map<Frame, nat>, kernel: seq<Entry>, t: Frame, i: nat, e: Entry)
    requires TablesOk(phys, level) && KernelOk(phys, level, kernel) && t in level && UserSlot(level[t], i)
    ensures KernelOk(Put(phys, t, i, e), level, kernel)
  {
    forall r, j: nat
      ensures KernelAt(Put(phys, t, i, e), level, kernel, r, j)
    {
      assert KernelAt(phys, level, kernel, r, j);
    }
  }

  lemma LeafPut(s: State, t: Frame, i: nat, e: Entry, b: State)
    requires TablesOk(s.phys, s.level) && LeafSlotOf(s, t, i)
    requires b.phys == Put(s.phys, t, i, e) && b.level == s.level
    ensures LeafChanged(s, b, Slot(t, i), EntryAt(s.phys, t, i), e)
  {
  }

  lemma LeavesLeafChange(a: State, b: State, at: Slot, x: Entry, y: Entry)
    requires LeavesOk(a.phys, a.level, a.refs) && LeafChanged(a, b, at, x, y) && b.level == a.level
    requires b.refs == a.refs && forall f | f in a.phys && f !in a.level :: f in b.phys && b.phys[f] == a.phys[f]
    requires y.Used? ==> LeafOk(a.phys, a.level, a.refs, y)
    ensures LeavesOk(b.phys, b.level, b.refs)
  {
    forall slot
      ensures LeafAtOk(b.phys, b.level, b.refs, slot)
    {
      assert LeafAtOk(a.phys, a.level, a.refs, slot);
    }
  }

  /** One leaf slot rewritten, refcounts untouched, holders following the leaf. */
  lemma LeafStepInv(s: State, t: Frame, i: nat, e: Entry, b: State)
    requires Inv(s) && LeafSlotOf(s, t, i)
    requires b == s.(phys := Put(s.phys, t, i, e), holders := b.holders) && b.holders.Keys == s.holders.Keys
    requires e.Used? ==> LeafOk(s.phys, s.level, s.refs, e)
    requires forall f :: Inside(b, f) + NamesFrame(EntryAt(s.phys, t, i), f) == Inside(s, f) + NamesFrame(e, f)
    ensures Inv(b)
  {
    LeafPut(s, t, i, e, b);
    ShapeLeafChange(s.phys, s.level, s.owner, t, i, e);
    KernelPut(s.phys, s.level, s.kernel, t, i, e);
    var x := EntryAt(s.phys, t, i);
    LeavesLeafChange(s, b, Slot(t, i), x, e);
    TablesHeldNowhere(s, Slot(t, i), e, b);
    AccountLeafChange(s, b, Slot(t, i), x, e);
  }

  lemma TablesHeldNowhere(s: State, at: Slot, e: Entry, b: State)
    requires Accounted(s) && LeavesOk(s.phys, s.level, s.refs) && SameFrames(s, b) && b.refs == s.refs
    requires b.level == s.level && (e.Used? ==> LeafOk(s.phys, s.level, s.refs, e))
    requires forall f :: Inside(b, f) + NamesFrame(LeafEntry(s.phys, s.level, at), f) == Inside(s, f) + NamesFrame(e, f)
    ensures forall f | f in b.level :: f in b.holders && b.holders[f] == 0
  {
    forall f | f in b.level
      ensures f in b.holders && b.holders[f] == 0
    {
      assert AccountedAt(s, f);
      assert LeafAtOk(s.phys, s.level, s.refs, at);
      assert Inside(b, f) + NamesFrame(LeafEntry(s.phys, s.level, at), f) == Inside(s, f) + NamesFrame(e, f);
    }
  }

  ghost predicate LeafSlotOf(s: State, t: Frame, i: nat) {
    t in s.level && s.level[t] == 1 && i < 512
  }

  // ------------------------------------------------------------------- leaves

  function Plus(m: map<Frame, nat>, f: Frame): map<Frame, nat> {
    if f in m then m[f := m[f] + 1] else m
  }

  function Minus(m: map<Frame, nat>, f: Frame): map<Frame, nat> {
    if f in m && 0 < m[f] then m[f := m[f] - 1] else m
  }

  lemma LeafIsOk(s: State, t: Frame, i: nat)
    requires Inv(s) && LeafSlotOf(s, t, i) && EntryAt(s.phys, t, i).Used?
    ensures LeafOk(s.phys, s.level, s.refs, EntryAt(s.phys, t, i)) && EntryAt(s.phys, t, i).frame in s.holders
  {
    assert LeafAtOk(s.phys, s.level, s.refs, Slot(t, i));
    assert AccountedAt(s, EntryAt(s.phys, t, i).frame);
  }

  /** A held frame becomes the leaf of an unused slot. */
  lemma MapLeafInv(s: State, t: Frame, i: nat, f: Frame, flags: Flags)
    requires Inv(s) && LeafSlotOf(s, t, i) && EntryAt(s.phys, t, i).Unused?
    requires 0 < Held(s, f) && LeafOk(s.phys, s.level, s.refs, Used(f, flags))
    ensures IsTable(s.phys, t)
    ensures Inv(s.(phys := Put(s.phys, t, i, Used(f, flags)), holders := Minus(s.holders, f)))
  {
    LeafStepInv(s, t, i, Used(f, flags),
                s.(phys := Put(s.phys, t, i, Used(f, flags)), holders := Minus(s.holders, f)));
  }

  /** A leaf is cleared; its reference is held outside until it is released. */
  lemma UnmapLeafInv(s: State, t: Frame, i: nat)
    requires Inv(s) && LeafSlotOf(s, t, i) && EntryAt(s.phys, t, i).Used?
    ensures IsTable(s.phys, t)
    ensures Inv(s.(phys := Put(s.phys, t, i, Unused), holders := Plus(s.holders, EntryAt(s.phys, t, i).frame)))
  {
    LeafIsOk(s, t, i);
    var f := EntryAt(s.phys, t, i).frame;
    LeafStepInv(s, t, i, Unused, s.(phys := Put(s.phys, t, i, Unused), holders := Plus(s.holders, f)));
  }

  /** New flags on a leaf; writable ones need an unshared frame. */
  lemma SetLeafFlagsInv(s: State, t: Frame, i: nat, flags: Flags)
    requires Inv(s) && LeafSlotOf(s, t, i) && EntryAt(s.phys, t, i).Used? && LeafFlags(flags)
    requires flags.writable ==> Count(s, EntryAt(s.phys, t, i).frame) == 1
    ensures IsTable(s.phys, t)
    ensures Inv(s.(phys := Put(s.phys, t, i, Used(EntryAt(s.phys, t, i).frame, flags))))
  {
    LeafIsOk(s, t, i);
    var e := Used(EntryAt(s.phys, t, i).frame, flags);
    LeafStepInv(s, t, i, e, s.(phys := Put(s.phys, t, i, e)));
  }

  // -------------------------------------------------- references outside tables

  lemma CountInv(s: State, b: State)
    requires Inv(s) && SameFrames(s, b) && b == s.(refs := b.refs, holders := b.holders)
    requires forall f :: Inside(b, f) == Inside(s, f)
    requires forall f | f in s.level :: Held(b, f) == 0
    requires LeavesOk(b.phys, b.level, b.refs)
    ensures Inv(b)
  {
    forall f | f in b.level
      ensures f in b.refs && f in b.holders && b.holders[f] == 0
    {
      assert AccountedAt(s, f);
    }
    AccountTableChange(s, b);
  }

  /** A free frame is handed out: one reference, held outside. */
  lemma AllocateInv(s: State, f: Frame)
    requires Inv(s) && f in s.refs && Count(s, f) == 0
    ensures Inv(s.(refs := s.refs[f := 1], holders := s.holders[f := 1]))
    ensures f in s.holders && f !in s.level && forall slot :: !Names(s.phys, s.level, slot, f)
  {
    assert AccountedAt(s, f);
    OnlyHeld(s, f);
    LeavesUnnamed(s.phys, s.level, s.refs, f, 1);
    var b := s.(refs := s.refs[f := 1], holders := s.holders[f := 1]);
    TablesUnheld(s);
    CountInv(s, b);
  }

  lemma TablesUnheld(s: State)
    requires Accounted(s)
    ensures forall f | f in s.level :: f in s.refs && f in s.holders && s.holders[f] == 0
  {
    forall f | f in s.level
      ensures f in s.refs && f in s.holders && s.holders[f] == 0
    {
      assert AccountedAt(s, f);
    }
  }

  lemma LeavesUnnamed(phys: Memory, level: map<Frame, nat>, refs: map<Frame, nat>, f: Frame, count: nat)
    requires LeavesOk(phys, level, refs) && f in refs
    requires forall slot :: !Names(phys, level, slot, f)
    ensures LeavesOk(phys, level, refs[f := count])
  {
    var after := refs[f := count];
    forall slot
      ensures LeafAtOk(phys, level, after, slot)
    {
      assert LeafAtOk(phys, level, refs, slot) && !Names(phys, level, slot, f);
    }
  }

  /** An outside reference is dropped. */
  lemma ReleaseInv(s: State, f: Frame)
    requires Inv(s) && 0 < Held(s, f)
    ensures 0 < Count(s, f) && Inv(s.(refs := Minus(s.refs, f), holders := Minus(s.holders, f)))
  {
    assert AccountedAt(s, f);
    var b := s.(refs := Minus(s.refs, f), holders := Minus(s.holders, f));
    forall slot
      ensures LeafAtOk(b.phys, b.level, b.refs, slot)
    {
      assert LeafAtOk(s.phys, s.level, s.refs, slot);
      if Names(s.phys, s.level, slot, f) {
        NamedTwice(s, slot, f);
      }
    }
    TablesUnheld(s);
    CountInv(s, b);
  }

  /** A leaf and an outside holder are two references. */
  lemma NamedTwice(s: State, slot: Slot, f: Frame)
    requires AccountedAt(s, f) && Names(s.phys, s.level, slot, f) && 0 < Held(s, f)
    ensures 1 < Count(s, f)
  {
    LeafSlotsMember(s.phys, s.level, f, slot);
  }

  /** A further reference is harmless once one of the frame's leaves is read-only. */
  lemma RetainInv(s: State, t: Frame, i: nat)
    requires Inv(s) && LeafSlotOf(s, t, i) && EntryAt(s.phys, t, i).Used? && !EntryAt(s.phys, t, i).flags.writable
    ensures var f := EntryAt(s.phys, t, i).frame;
            Inv(s.(refs := Plus(s.refs, f), holders := Plus(s.holders, f)))
  {
    LeafIsOk(s, t, i);
    var f, at := EntryAt(s.phys, t, i).frame, Slot(t, i);
    var b := s.(refs := Plus(s.refs, f), holders := Plus(s.holders, f));
    assert AccountedAt(s, f);
    forall slot
      ensures LeafAtOk(b.phys, b.level, b.refs, slot)
    {
      assert LeafAtOk(s.phys, s.level, s.refs, slot);
      if Names(s.phys, s.level, slot, f) && slot != at {
        TwoLeaves(s, at, slot, f);
      }
    }
    TablesUnheld(s);
    CountInv(s, b);
  }

  lemma TwoLeaves(s: State, x: Slot, y: Slot, f: Frame)
    requires AccountedAt(s, f) && x != y && Names(s.phys, s.level, x, f) && Names(s.phys, s.level, y, f) && f in s.refs
    ensures 1 < Count(s, f)
  {
    LeafSlotsMember(s.phys, s.level, f, x);
    LeafSlotsMember(s.phys, s.level, f, y);
    var m := LeafSlots(s.phys, s.level, f);
    assert {x, y} <= m;
    SubsetCard({x, y}, m);
  }

  lemma {:induction false} SubsetCard<T>(a: set<T>, b: set<T>)
    requires a <= b
    ensures |a| <= |b|
  {
    if a != {} {
      var x :| x in a;
      SubsetCard(a - {x}, b - {x});
    }
  }

  // ------------------------------------------------------------------- tables

  ghost predicate Fresh(s: State, f: Frame) {
    f in s.refs && f in s.holders && Count(s, f) == 1 && Held(s, f) == 1
  }

  ghost predicate TableSlotOf(s: State, p: Frame, i: nat) {
    p in s.level && 1 < s.level[p] && UserSlot(s.level[p], i)
  }

  /** A fresh frame, zeroed, becomes an empty table named by an unused slot. */
  function Link(s: State, p: Frame, i: nat, f: Frame, flags: Flags): State
    requires IsTable(s.phys, p) && i < 512 && p in s.level && 0 < s.level[p] && f != p
  {
    State(Put(s.phys[f := EmptyTable()], p, i, Used(f, flags)), s.refs,
          s.level[f := s.level[p] - 1], s.owner[f := Slot(p, i)], s.holders[f := 0], s.kernel)
  }

  /** What linking changes, entry by entry. */
  ghost predicate Linked(s: State, b: State, p: Frame, i: nat, f: Frame, flags: Flags) {
    && p in s.level && 1 < s.level[p]
    && b.level == s.level[f := s.level[p] - 1] && b.owner == s.owner[f := Slot(p, i)]
    && b.refs == s.refs && b.holders == s.holders[f := 0] && b.kernel == s.kernel
    && IsTable(b.phys, f) && IsTable(b.phys, p)
    && (forall j: nat :: EntryAt(b.phys, f, j).Unused?)
    && (forall t, j: nat | t != f ::
          EntryAt(b.phys, t, j) == if t == p && j == i then Used(f, flags) else EntryAt(s.phys, t, j))
    && (forall g | g in s.phys && g != f && g != p :: g in b.phys && b.phys[g] == s.phys[g])
  }

  lemma LinkEntries(s: State, p: Frame, i: nat, f: Frame, flags: Flags)
    requires TablesOk(s.phys, s.level) && TableSlotOf(s, p, i) && f !in s.level
    ensures IsTable(s.phys, p) && Linked(s, Link(s, p, i, f, flags), p, i, f, flags)
  {
  }

  lemma LinkInv(s: State, p: Frame, i: nat, f: Frame, flags: Flags)
    requires Inv(s) && TableSlotOf(s, p, i) && EntryAt(s.phys, p, i).Unused? && Fresh(s, f)
    requires ParentFlags(flags)
    ensures f !in s.level && IsTable(s.phys, p)
    ensures Inv(Link(s, p, i, f, flags)) && Linked(s, Link(s, p, i, f, flags), p, i, f, flags)
  {
    assert AccountedAt(s, f);
    OnlyHeld(s, f);
    var b := Link(s, p, i, f, flags);
    LinkEntries(s, p, i, f, flags);
    LinkLeaves(s, b, p, i, f, flags);
    LinkDown(s, b, p, i, f, flags);
    LinkUp(s, b, p, i, f, flags);
    LinkKernel(s, b, p, i, f, flags);
    TablesUnheld(s);
    AccountTableChange(s, b);
  }

  lemma LinkLeaves(s: State, b: State, p: Frame, i: nat, f: Frame, flags: Flags)
    requires LeavesOk(s.phys, s.level, s.refs) && f !in s.level && Linked(s, b, p, i, f, flags)
    requires forall slot :: !Names(s.phys, s.level, slot, f)
    requires TablesOk(s.phys, s.level)
    ensures SameLeaves(s, b) && LeavesOk(b.phys, b.level, b.refs)
  {
    forall slot
      ensures LeafEntry(b.phys, b.level, slot) == LeafEntry(s.phys, s.level, slot)
      ensures LeafAtOk(b.phys, b.level, b.refs, slot)
    {
      assert !Names(s.phys, s.level, slot, f);
      assert LeafAtOk(s.phys, s.level, s.refs, slot);
    }
  }

  lemma LinkDown(s: State, b: State, p: Frame, i: nat, f: Frame, flags: Flags)
    requires DownOk(s.phys, s.level, s.owner) && f !in s.level
    requires TableSlotOf(s, p, i) && ParentFlags(flags) && Linked(s, b, p, i, f, flags)
    ensures DownOk(b.phys, b.level, b.owner)
  {
    forall t, j: nat
      ensures DownAt(b.phys, b.level, b.owner, t, j)
    {
      assert DownAt(s.phys, s.level, s.owner, t, j);
    }
  }

  lemma LinkUp(s: State, b: State, p: Frame, i: nat, f: Frame, flags: Flags)
    requires UpOk(s.phys, s.level, s.owner) && f !in s.level && TablesOk(s.phys, s.level)
    requires TableSlotOf(s, p, i) && EntryAt(s.phys, p, i).Unused? && Linked(s, b, p, i, f, flags)
    ensures UpOk(b.phys, b.level, b.owner)
  {
    forall c
      ensures UpAt(b.phys, b.level, b.owner, c)
    {
      assert UpAt(s.phys, s.level, s.owner, c);
    }
  }

  lemma LinkKernel(s: State, b: State, p: Frame, i: nat, f: Frame, flags: Flags)
    requires KernelOk(s.phys, s.level, s.kernel) && f !in s.level && TablesOk(s.phys, s.level)
    requires TableSlotOf(s, p, i) && Linked(s, b, p, i, f, flags)
    ensures KernelOk(b.phys, b.level, b.kernel)
  {
    forall r, j: nat
      ensures KernelAt(b.phys, b.level, b.kernel, r, j)
    {
      assert KernelAt(s.phys, s.level, s.kernel, r, j);
    }
  }

  /** The slot that owns a table is cleared; the table floats free. */
  function Detach(s: State, f: Frame): State
    requires f in s.owner && IsTable(s.phys, s.owner[f].table) && s.owner[f].index < 512
  {
    State(Put(s.phys, s.owner[f].table, s.owner[f].index, Unused), s.refs,
          s.level, s.owner - {f}, s.holders, s.kernel)
  }

  lemma OwnerSlot(s: State, f: Frame)
    requires TablesOk(s.phys, s.level) && UpOk(s.phys, s.level, s.owner) && f in s.owner
    ensures f in s.level && s.level[f] < 4
    ensures TableSlotOf(s, s.owner[f].table, s.owner[f].index) && s.level[s.owner[f].table] == s.level[f] + 1
    ensures IsTable(s.phys, s.owner[f].table) && s.owner[f].index < 512 && s.owner[f].table != f
    ensures EntryAt(s.phys, s.owner[f].table, s.owner[f].index).Used?
    ensures EntryAt(s.phys, s.owner[f].table, s.owner[f].index).frame == f
  {
    assert UpAt(s.phys, s.level, s.owner, f);
  }

  lemma DetachInv(s: State, f: Frame)
    requires Inv(s) && f in s.owner
    ensures IsTable(s.phys, s.owner[f].table) && s.owner[f].index < 512
    ensures Inv(Detach(s, f)) && SameLeaves(s, Detach(s, f))
  {
    OwnerSlot(s, f);
    var b := Detach(s, f);
    forall slot
      ensures LeafEntry(b.phys, b.level, slot) == LeafEntry(s.phys, s.level, slot)
      ensures LeafAtOk(b.phys, b.level, b.refs, slot)
    {
      assert LeafAtOk(s.phys, s.level, s.refs, slot);
    }
    DetachShape(s, f);
    KernelPut(s.phys, s.level, s.kernel, s.owner[f].table, s.owner[f].index, Unused);
    TablesUnheld(s);
    AccountTableChange(s, b);
  }

  lemma DetachShape(s: State, f: Frame)
    requires Shape(s.phys, s.level, s.owner) && f in s.owner
    requires IsTable(s.phys, s.owner[f].table) && s.owner[f].index < 512
    ensures var b := Detach(s, f); Shape(b.phys, b.level, b.owner)
  {
    var b := Detach(s, f);
    forall t, j: nat
      ensures DownAt(b.phys, b.level, b.owner, t, j)
    {
      assert DownAt(s.phys, s.level, s.owner, t, j);
    }
    forall c
      ensures UpAt(b.phys, b.level, b.owner, c)
    {
      assert UpAt(s.phys, s.level, s.owner, c) && UpAt(s.phys, s.level, s.owner, f);
    }
  }

  /** An empty table that no slot names stops being a table; its frame is held outside. */
  function Discard(s: State, f: Frame): State {
    s.(level := s.level - {f}, holders := s.holders[f := 1])
  }

  ghost predicate Loose(s: State, f: Frame) {
    f in s.level && f !in s.owner && (s.level[f] < 4 || NoUserEntries(s.phys, f))
  }

  /** A root whose user slots are all unused. */
  ghost predicate NoUserEntries(phys: Memory, r: Frame) {
    forall i: nat | UserSlot(4, i) :: EntryAt(phys, r, i).Unused?
  }

  lemma DiscardInv(s: State, f: Frame)
    requires Inv(s) && Loose(s, f) && (s.level[f] < 4 ==> TableEmpty(s.phys, f))
    ensures Inv(Discard(s, f)) && SameLeaves(s, Discard(s, f)) && Fresh(Discard(s, f), f)
  {
    var b := Discard(s, f);
    forall slot
      ensures LeafEntry(b.phys, b.level, slot) == LeafEntry(s.phys, s.level, slot)
      ensures LeafAtOk(b.phys, b.level, b.refs, slot)
    {
      assert LeafAtOk(s.phys, s.level, s.refs, slot);
    }
    TableUnnamed(s, f);
    DiscardShape(s, f);
    TablesUnheld(s);
    AccountTableChange(s, b);
  }

  lemma DiscardShape(s: State, f: Frame)
    requires Shape(s.phys, s.level, s.owner) && KernelOk(s.phys, s.level, s.kernel)
    requires Loose(s, f) && (s.level[f] < 4 ==> TableEmpty(s.phys, f))
    ensures var b := Discard(s, f); Shape(b.phys, b.level, b.owner) && KernelOk(b.phys, b.level, b.kernel)
  {
    var b := Discard(s, f);
    forall t, j: nat
      ensures DownAt(b.phys, b.level, b.owner, t, j) && KernelAt(b.phys, b.level, b.kernel, t, j)
    {
      assert DownAt(s.phys, s.level, s.owner, t, j) && KernelAt(s.phys, s.level, s.kernel, t, j);
    }
    forall c
      ensures UpAt(b.phys, b.level, b.owner, c)
    {
      assert UpAt(s.phys, s.level, s.owner, c);
    }
  }

  /** No leaf names a table, so its one reference is the table's own. */
  lemma TableUnnamed(s: State, f: Frame)
    requires Accounted(s) && LeavesOk(s.phys, s.level, s.refs) && f in s.level
    ensures f in s.refs && f in s.holders && Count(s, f) == 1 && Held(s, f) == 0
  {
    assert AccountedAt(s, f);
    forall slot
      ensures slot !in LeafSlots(s.phys, s.level, f)
    {
      LeafSlotsMember(s.phys, s.level, f, slot);
      assert LeafAtOk(s.phys, s.level, s.refs, slot);
    }
    assert LeafSlots(s.phys, s.level, f) == {};
  }

  // -------------------------------------------------------------- data and roots

  /** The tables are untouched: same entries in every table frame. */
  ghost predicate SameTables(s: State, b: State) {
    && b.level == s.level && b.owner == s.owner && b.kernel == s.kernel
    && (forall t | t in s.level :: t in s.phys && t in b.phys && b.phys[t] == s.phys[t])
  }

  /** Bytes stored in a frame that is no table. */
  lemma WriteDataInv(s: State, f: Frame, bytes: seq<bv8>)
    requires Inv(s) && f in s.refs && f !in s.level && |bytes| == 0x1000
    ensures Inv(s.(phys := s.phys[f := Data(bytes)]))
  {
    var b := s.(phys := s.phys[f := Data(bytes)]);
    assert SameTables(s, b);
    DataShape(s, b);
    forall slot
      ensures LeafEntry(b.phys, b.level, slot) == LeafEntry(s.phys, s.level, slot)
      ensures LeafAtOk(b.phys, b.level, b.refs, slot)
    {
      assert LeafAtOk(s.phys, s.level, s.refs, slot);
    }
    TablesUnheld(s);
    AccountTableChange(s, b);
  }

  lemma DataShape(s: State, b: State)
    requires Shape(s.phys, s.level, s.owner) && KernelOk(s.phys, s.level, s.kernel) && SameTables(s, b)
    ensures Shape(b.phys, b.level, b.owner) && KernelOk(b.phys, b.level, b.kernel)
  {
    forall t, j: nat
      ensures DownAt(b.phys, b.level, b.owner, t, j) && KernelAt(b.phys, b.level, b.kernel, t, j)
    {
      assert DownAt(s.phys, s.level, s.owner, t, j) && KernelAt(s.phys, s.level, s.kernel, t, j);
    }
    forall c
      ensures UpAt(b.phys, b.level, b.owner, c)
    {
      assert UpAt(s.phys, s.level, s.owner, c);
    }
  }

  /** A root: the kernel's slots copied, every user slot unused. */
  function RootTable(kernel: seq<Entry>): (c: Content)
    requires |kernel| == 512
    ensures c.Table? && |c.entries| == 512
    ensures forall i: nat | i < 512 :: c.entries[i] == if UserSlot(4, i) then Unused else kernel[i]
  {
    Table(seq(512, i requires 0 <= i < 512 => if UserSlot(4, i) then Unused else kernel[i]))
  }

  function AddRoot(s: State, f: Frame): State
    requires |s.kernel| == 512
  {
    State(s.phys[f := RootTable(s.kernel)], s.refs, s.level[f := 4], s.owner, s.holders[f := 0], s.kernel)
  }

  lemma AddRootInv(s: State, f: Frame)
    requires Inv(s) && Fresh(s, f)
    ensures f !in s.level && Inv(AddRoot(s, f)) && NoUserEntries(AddRoot(s, f).phys, f)
    ensures SameLeaves(s, AddRoot(s, f))
  {
    assert AccountedAt(s, f);
    OnlyHeld(s, f);
    var b := AddRoot(s, f);
    forall slot
      ensures LeafEntry(b.phys, b.level, slot) == LeafEntry(s.phys, s.level, slot)
      ensures LeafAtOk(b.phys, b.level, b.refs, slot)
    {
      assert LeafAtOk(s.phys, s.level, s.refs, slot) && !Names(s.phys, s.level, slot, f);
    }
    AddRootShape(s, f);
    TablesUnheld(s);
    AccountTableChange(s, b);
  }

  lemma AddRootShape(s: State, f: Frame)
    requires Shape(s.phys, s.level, s.owner) && KernelOk(s.phys, s.level, s.kernel) && f !in s.level
    ensures var b := AddRoot(s, f);
            && Shape(b.phys, b.level, b.owner) && KernelOk(b.phys, b.level, b.kernel) && NoUserEntries(b.phys, f)
  {
    var b := AddRoot(s, f);
    forall t, j: nat
      ensures DownAt(b.phys, b.level, b.owner, t, j) && KernelAt(b.phys, b.level, b.kernel, t, j)
    {
      assert DownAt(s.phys, s.level, s.owner, t, j) && KernelAt(s.phys, s.level, s.kernel, t, j);
    }
    forall c
      ensures UpAt(b.phys, b.level, b.owner, c)
    {
      assert UpAt(s.phys, s.level, s.owner, c);
    }
  }
}
