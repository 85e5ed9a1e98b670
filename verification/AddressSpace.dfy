/** User address spaces: creation, fork by copy-on-write, and drop. */
module AddressSpaces {
  import opened Base
  import opened FramePool
  import opened PageTables
  import opened PageSteps
  import opened PageWalk
  import opened SpaceView
  import opened PagePaths
  import opened CowSteps
  import opened DestroySteps
  import opened CloneSteps
  import opened ForkViews
  import opened MemoryMapping
  import opened PrivateFrames

  datatype AddressSpaceError = OutOfFrames

  /** Copies the kernel's slots into a root and leaves the user slots unused. */
  method BuildRoot(kernel: seq<Entry>) returns (c: Content)
    requires |kernel| == 512
    ensures c == RootTable(kernel)
  {
    var entries: seq<Entry> := [];
    while |entries| < 512
      invariant |entries| <= 512
      invariant forall j | 0 <= j < |entries| :: entries[j] == RootTable(kernel).entries[j]
    {
      var i := |entries|;
      if 256 <= i || IsKernelReservedSlot(i) {
        entries := entries + [kernel[i]];
      } else {
        entries := entries + [Unused];
      }
    }
    assert entries == RootTable(kernel).entries;
    return Table(entries);
  }

  /** A new space shows no page and shares the kernel's slots. */
  method NewAddressSpace(m: MemoryMapper) returns (r: Result<Frame, AddressSpaceError>)
    requires m.Valid()
    modifies m
    ensures m.Valid() && m.holders == old(m.holders) && m.shortages == old(m.shortages) + One(r.Err?)
    ensures r.Err? ==> m.View() == old(m.View())
    ensures r.Ok? ==>
              && r.value !in old(m.level) && r.value in old(m.refs) && old(m.refs)[r.value] == 0 && |m.kernel| == 512
              && m.View() == RootAdded(old(m.View()), r.value)
              && Spaces(m.phys, m.level) == old(Spaces(m.phys, m.level))[r.value := imap[]]
    ensures KeepsPrivate(old(m.View()), m.View())
  {
    hide KeepsPrivate;
    ghost var s := m.View();
    var frame := m.AllocateFrame();
    if frame.None? {
      KeepsSelf(s);
      return Err(AddressSpaceError.OutOfFrames);
    }
    RootAddedInv(s, frame.value);
    RootAddedShape(s, frame.value);
    RootAddedViews(s, frame.value);
    RootKeeps(s, frame.value);
    var table := BuildRoot(m.kernel);
    m.InstallRoot(frame.value, table);
    return Ok(frame.value);
  }

  /** Retains the frame, marks the parent's leaf if it was writable, and copies it to the child. */
  method ShareLeaf(m: MemoryMapper, x: Frame, y: Frame, i: nat) returns (ok: bool)
    requires CanShare(m.View(), Slot(x, i), Slot(y, i))
    requires IsTableNow(m.phys, Slot(x, i)) && IsTableNow(m.phys, Slot(y, i))
    modifies m`phys, m`refs, m`shortages
    ensures m.shortages == old(m.shortages) + One(!ok)
    ensures ok <==> Count(old(m.View()), EntryAt(old(m.phys), x, i).frame) <= MAX_RETAIN
    ensures m.View() == if ok then Shared(old(m.View()), Slot(x, i), Slot(y, i)) else old(m.View())
    ensures ok ==> SharedLeaf(EntryAt(old(m.phys), x, i), EntryAt(m.phys, x, i))
    ensures ok ==> EntryAt(m.phys, y, i) == EntryAt(m.phys, x, i)
  {
    ghost var s := m.View();
    var entry := EntryAt(m.phys, x, i);
    SharedLive(s, x, i);
    ok := m.RetainLeafFrame(entry.frame);
    if !ok {
      return;
    }
    var flags := entry.flags;
    if flags.writable {
      flags := flags.(writable := false, cow := true);
      m.SetEntry(Slot(x, i), Used(entry.frame, flags));
    } else {
      PutSame(m.phys, x, i);
    }
    m.SetEntry(Slot(y, i), Used(entry.frame, flags));
    CowIsShared(entry);
  }

  lemma SharedKeeps(s: State, x: Frame, y: Frame, i: nat)
    requires CanShare(s, Slot(x, i), Slot(y, i)) && IsTableNow(s.phys, Slot(x, i)) && IsTableNow(s.phys, Slot(y, i))
    ensures KeepsPrivate(s, Shared(s, Slot(x, i), Slot(y, i)))
  {
    TableNotPrivate(s, x);
    TableNotPrivate(s, y);
    LeafNotPrivate(s, x, i);
  }

  lemma SproutKeeps(s: State, y: Frame, i: nat, f: Frame, flags: Flags)
    requires CanSprout(s, y, i, f, flags) && IsTable(s.phys, y) && f != y
    ensures KeepsPrivate(s, Sprout(s, y, i, f, flags))
  {
    LinkedKeeps(s, y, i, f, flags);
  }

  lemma SharedLive(s: State, x: Frame, i: nat)
    requires Inv(s) && LeafSlotOf(s, x, i) && EntryAt(s.phys, x, i).Used?
    ensures EntryAt(s.phys, x, i).frame in s.refs && 0 < Count(s, EntryAt(s.phys, x, i).frame)
  {
    LeafIsOk(s, x, i);
    LeafLive(s, Slot(x, i));
  }

  lemma PutSame(phys: Memory, t: Frame, i: nat)
    requires IsTable(phys, t) && i < 512
    ensures Put(phys, t, i, EntryAt(phys, t, i)) == phys
  {
    assert phys[t].entries[i := EntryAt(phys, t, i)] == phys[t].entries;
  }

  /** Shares every leaf of one leaf table. */
  method ClonePt(m: MemoryMapper, ghost p: Frame, ghost c: Frame, ghost prefix: Page, x: Frame, y: Frame)
    returns (ok: bool)
    requires CloneState(m.View(), y) && CloneAt(m.View(), p, c, prefix, x, y) && |prefix| == 3
    requires Pending(m.phys, y, 1, 0)
    modifies m
    ensures m.shortages == old(m.shortages) + One(!ok) && KeepsPrivate(old(m.View()), m.View())
    ensures ok ==> CloneDone(old(m.View()), m.View(), p, c, prefix, y)
    ensures !ok ==> CloneFailed(old(m.View()), m.View(), p, c, y)
  {
    hide CloneState, CloneAt, CloneLoop, CloneDone, CloneFailed, Pending, KeepsPrivate;
    ghost var s0 := m.View();
    KeepsSelf(s0);
    CloneStart(s0, p, c, prefix, x, y);
    var i := 0;
    while i < 512
      invariant 0 <= i <= 512 && m.shortages == old(m.shortages) && KeepsPrivate(s0, m.View())
      invariant CloneLoop(s0, m.View(), p, c, prefix, x, y, i)
    {
      ghost var s := m.View();
      if EntryAt(m.phys, x, i).Unused? {
        CloneSkip(s0, s, p, c, prefix, x, y, i);
      } else {
        CloneShare(s0, s, p, c, prefix, x, y, i);
        SharedKeeps(s, x, y, i);
        ok := ShareLeaf(m, x, y, i);
        if !ok {
          CloneGiveUp(s0, s, p, c, prefix, x, y, i);
          return;
        }
        KeepsTwice(s0, s, m.View());
      }
      i := i + 1;
    }
    CloneEnd(s0, m.View(), p, c, prefix, x, y);
    return true;
  }

  /**
   Clones the table `x` of the parent into the empty table `y` of the child. The
   three upper levels are alike, but for the kernel's slots of a root.
   */
  method CloneTable(m: MemoryMapper, ghost p: Frame, ghost c: Frame, ghost prefix: Page, x: Frame, y: Frame, k: nat)
    returns (ok: bool)
    requires CloneState(m.View(), y) && CloneAt(m.View(), p, c, prefix, x, y) && k == 4 - |prefix| && 1 < k
    requires Pending(m.phys, y, k, 0)
    modifies m
    ensures m.shortages == old(m.shortages) + One(!ok) && KeepsPrivate(old(m.View()), m.View())
    ensures ok ==> CloneDone(old(m.View()), m.View(), p, c, prefix, y)
    ensures !ok ==> CloneFailed(old(m.View()), m.View(), p, c, y)
    decreases k, 1
  {
    hide CloneState, CloneAt, CloneLoop, CloneDone, CloneFailed, Pending, KeepsPrivate;
    ghost var s0 := m.View();
    KeepsSelf(s0);
    CloneStart(s0, p, c, prefix, x, y);
    var i := 0;
    while i < 512
      invariant 0 <= i <= 512 && m.shortages == old(m.shortages) && KeepsPrivate(s0, m.View())
      invariant CloneLoop(s0, m.View(), p, c, prefix, x, y, i)
    {
      if !UserSlot(k, i) || EntryAt(m.phys, x, i).Unused? {
        CloneSkip(s0, m.View(), p, c, prefix, x, y, i);
      } else {
        ghost var s := m.View();
        ok := CloneSlot(m, s0, p, c, prefix, x, y, k, i);
        KeepsTwice(s0, s, m.View());
        if !ok {
          return;
        }
      }
      i := i + 1;
    }
    CloneEnd(s0, m.View(), p, c, prefix, x, y);
    return true;
  }

  /** A fresh table for the child under one slot, then the tables below it. */
  method CloneSlot(m: MemoryMapper, ghost s0: State, ghost p: Frame, ghost c: Frame, ghost prefix: Page,
                   x: Frame, y: Frame, k: nat, i: nat)
    returns (ok: bool)
    requires CloneLoop(s0, m.View(), p, c, prefix, x, y, i) && k == 4 - |prefix| && 1 < k && UserSlot(k, i)
    requires EntryAt(m.phys, x, i).Used?
    modifies m
    ensures m.shortages == old(m.shortages) + One(!ok) && KeepsPrivate(old(m.View()), m.View())
    ensures ok ==> CloneLoop(s0, m.View(), p, c, prefix, x, y, i + 1)
    ensures !ok ==> CloneFailed(s0, m.View(), p, c, y)
    decreases k, 0
  {
    hide CloneAt, CloneDone, CloneFailed, Pending, Mirrored, Cloning, ClonedTo, Inv, KeepsPrivate;
    ghost var s := m.View();
    var entry := EntryAt(m.phys, x, i);
    var frame := m.AllocateFrame();
    if frame.None? {
      CloneGiveUp(s0, s, p, c, prefix, x, y, i);
      KeepsSelf(s);
      return false;
    }
    CloneEnter(s0, s, p, c, prefix, x, y, i, frame.value);
    SproutKeeps(s, y, i, frame.value, entry.flags);
    SproutChild(m, s, y, i, frame.value, entry.flags);
    ghost var b := m.View();
    if k == 2 {
      ok := ClonePt(m, p, c, prefix + [i], entry.frame, frame.value);
    } else {
      ok := CloneTable(m, p, c, prefix + [i], entry.frame, frame.value, k - 1);
    }
    KeepsTwice(s, b, m.View());
    if ok {
      CloneReturn(s0, s, b, m.View(), p, c, prefix, x, y, i, frame.value);
    } else {
      CloneReturnFailed(s0, s, b, m.View(), p, c, prefix, x, y, i, frame.value);
    }
  }

  method SproutChild(m: MemoryMapper, ghost s: State, y: Frame, i: nat, f: Frame, flags: Flags)
    requires CanSprout(s, y, i, f, flags) && IsTable(s.phys, y) && f != y
    requires Inv(m.View()) && m.View() == s.(refs := s.refs[f := 1], holders := s.holders[f := 1])
    modifies m`phys, m`level, m`owner, m`holders
    ensures m.View() == Sprout(s, y, i, f, flags)
  {
    m.LinkTable(y, i, f, flags);
  }

  /**
   Fork. On success every program sees what it would if each page of the parent
   had been copied. On failure the child is dropped again: refcounts and tables
   are as before, and at most leaves of the parent are marked copy-on-write.
   */
  method CloneForChild(m: MemoryMapper, parent: Frame) returns (r: Result<Frame, AddressSpaceError>)
    requires m.Valid() && IsRoot(m.View(), parent)
    modifies m
    ensures m.Valid() && m.holders == old(m.holders) && m.shortages == old(m.shortages) + One(r.Err?)
    ensures r.Ok? ==>
              && r.value !in old(m.level) && parent in old(Spaces(m.phys, m.level))
              && Spaces(m.phys, m.level) ==
                 old(Spaces(m.phys, m.level))[r.value := old(Spaces(m.phys, m.level))[parent]]
              && LeavesShared(old(m.phys), m.phys, parent, r.value)
    ensures r.Err? ==> Abandoned(old(m.View()), m.View()) && Spaces(m.phys, m.level) == old(Spaces(m.phys, m.level))
    ensures r.Err? ==> OnlyMarked(old(m.View()), m.View(), parent)
    ensures KeepsPrivate(old(m.View()), m.View())
  {
    hide KeepsPrivate, CloneAt, CloneDone, CloneFailed, CloneState, Pending, Inv, Nonempty, Attached, LeavesShared,
         OnlyMarked;
    ghost var s := m.View();
    var child := NewAddressSpace(m);
    if child.Err? {
      AbandonedSelf(s, parent);
      return Err(child.error);
    }
    ghost var s1 := m.View();
    ForkStart(s, parent, child.value);
    var ok := CloneTable(m, parent, child.value, [], parent, child.value, 4);
    ghost var b := m.View();
    KeepsTwice(s, s1, b);
    if ok {
      ForkDone(s, b, parent, child.value);
      return Ok(child.value);
    }
    DropChild(m, s, s1, parent, child.value);
    KeepsTwice(s, b, m.View());
    return Err(AddressSpaceError.OutOfFrames);
  }

  lemma AbandonedSelf(s: State, p: Frame)
    ensures Abandoned(s, s) && OnlyMarked(s, s, p)
  {
  }

  lemma ForkStart(s: State, p: Frame, c: Frame)
    requires Nonempty(s, {}) && Attached(s, {})
    requires Inv(s) && |s.kernel| == 512 && IsRoot(s, p) && c in s.refs && s.refs[c] == 0
    ensures var s1 := RootAdded(s, c);
            && c !in s.level && Inv(s1) && s1.holders == s.holders
            && CloneState(s1, c) && CloneAt(s1, p, c, [], p, c) && Pending(s1.phys, c, 4, 0)
  {
    RootAddedInv(s, c);
    RootAddedShape(s, c);
  }

  /** A finished clone, seen from before the child was made. */
  lemma ForkDone(s: State, b: State, p: Frame, c: Frame)
    requires Inv(s) && |s.kernel| == 512 && IsRoot(s, p) && c in s.refs && s.refs[c] == 0
    requires CloneDone(RootAdded(s, c), b, p, c, [], c)
    ensures Inv(b) && Nonempty(b, {}) && Attached(b, {}) && b.holders == s.holders
    ensures p in Spaces(s.phys, s.level)
    ensures Spaces(b.phys, b.level) == Spaces(s.phys, s.level)[c := Spaces(s.phys, s.level)[p]]
    ensures LeavesShared(s.phys, b.phys, p, c)
  {
    hide Inv, Spaces, LeavesShared, CloneAt;
    var s1 := RootAdded(s, c);
    RootAddedInv(s, c);
    RootAddedViews(s, c);
    ForkedViews(s1, b, p, c);
    ForkedKeys(s, s1, p, c);
    ForkedLeaves(s, b, p, c);
  }

  lemma ForkedKeys(s: State, s1: State, p: Frame, c: Frame)
    requires IsRoot(s, p) && p != c && Spaces(s1.phys, s1.level) == Spaces(s.phys, s.level)[c := imap[]]
    ensures p in Spaces(s.phys, s.level) && p in Spaces(s1.phys, s1.level)
    ensures Spaces(s1.phys, s1.level)[c := SpaceOf(s1.phys, p)] ==
            Spaces(s.phys, s.level)[c := Spaces(s.phys, s.level)[p]]
  {
    assert Spaces(s1.phys, s1.level)[p] == SpaceOf(s1.phys, p);
  }

  /** A leaf that can be shared: the frame and rights of before, but a store must first take a copy. */
  ghost predicate SharedLeaf(was: Entry, now: Entry) {
    && now.Used? == was.Used?
    && (was.Used? ==>
          && now.frame == was.frame && now.flags.present == was.flags.present && now.flags.user == was.flags.user
          && now.flags.huge == was.flags.huge && now.flags.noExecute == was.flags.noExecute
          && !now.flags.writable && (now.flags.cow <==> was.flags.writable || was.flags.cow))
  }

  lemma CowIsShared(e: Entry)
    ensures SharedLeaf(e, CowEntry(e))
  {
  }

  /** Parent and child have the same leaves: those of before, marked if they were writable. */
  ghost predicate LeavesShared(x: Memory, y: Memory, p: Frame, c: Frame) {
    forall pg | UserPage(pg) :: SharedLeaf(LeafOf(x, p, pg), LeafOf(y, p, pg)) && LeafOf(y, c, pg) == LeafOf(y, p, pg)
  }

  lemma ForkedLeaves(s: State, b: State, p: Frame, c: Frame)
    requires Inv(s) && |s.kernel| == 512 && IsRoot(s, p) && c in s.refs && Count(s, c) == 0 && c !in s.level
    requires ClonedTo(RootAdded(s, c), b, p, c, [], 512)
    ensures LeavesShared(s.phys, b.phys, p, c)
  {
    var s1 := RootAdded(s, c);
    DataTranslation(s, s1);
    forall pg | UserPage(pg)
      ensures SharedLeaf(LeafOf(s.phys, p, pg), LeafOf(b.phys, p, pg)) && LeafOf(b.phys, c, pg) == LeafOf(b.phys, p, pg)
    {
      CowIsShared(LeafOf(s.phys, p, pg));
      assert SameLeaf(s, s1, p, pg) && Under([], 512, pg);
      assert ClonedAt(s1, b, p, c, [], 512, p, pg) && ClonedAt(s1, b, p, c, [], 512, c, pg);
    }
  }

  /** Spaces other than the parent keep their very leaf maps, and its own leaves are kept or marked. */
  ghost predicate OnlyMarked(s: State, d: State, p: Frame) {
    && (forall q | IsRoot(s, q) && q != p :: Leaves(d.phys, q) == Leaves(s.phys, q))
    && forall pg | UserPage(pg) :: KeptOrMarked(LeafOf(s.phys, p, pg), LeafOf(d.phys, p, pg))
  }

  ghost predicate KeptOrMarked(was: Entry, now: Entry) {
    now == was || SharedLeaf(was, now)
  }

  lemma ParentMarked(s: State, b: State, d: State, p: Frame, c: Frame, gone: set<Frame>, pg: Page)
    requires Inv(s) && |s.kernel| == 512 && c in s.refs && Count(s, c) == 0 && c !in s.level
    requires CloneFailed(RootAdded(s, c), b, p, c, c) && Destroyed(b, d, c, gone) && IsRoot(b, c)
    requires IsRoot(s, p) && UserPage(pg)
    ensures KeptOrMarked(LeafOf(s.phys, p, pg), LeafOf(d.phys, p, pg))
  {
    var s1 := RootAdded(s, c);
    assert IsRoot(b, p) && SoftAt(s1, b, p, c, p, pg) by {
      assert KeptAt(s1, b, c, p);
    }
    hide Inv, CloneFailed, Destroyed, RootAdded, Leaves, LeafOf, CowEntry, SharedLeaf;
    RootAddedOld(s, c, p);
    DestroyedData(b, d, c, gone);
    OtherSpace(b, d, c, gone, p);
    SameLeavesLeaf(s1.phys, s.phys, p, pg);
    SameLeavesLeaf(d.phys, b.phys, p, pg);
    CowIsShared(LeafOf(s1.phys, p, pg));
  }

  lemma SameLeavesLeaf(x: Memory, y: Memory, r: Frame, pg: Page)
    requires Leaves(x, r) == Leaves(y, r) && UserPage(pg)
    ensures LeafOf(x, r, pg) == LeafOf(y, r, pg)
  {
    assert pg in Leaves(x, r) <==> pg in Leaves(y, r);
  }

  lemma OthersUnmarked(s: State, b: State, d: State, p: Frame, c: Frame, gone: set<Frame>, q: Frame)
    requires Inv(s) && |s.kernel| == 512 && c in s.refs && Count(s, c) == 0 && c !in s.level
    requires CloneFailed(RootAdded(s, c), b, p, c, c) && Destroyed(b, d, c, gone) && IsRoot(b, c)
    requires IsRoot(s, q) && q != p
    ensures Leaves(d.phys, q) == Leaves(s.phys, q)
  {
    var s1 := RootAdded(s, c);
    assert KeptAt(s1, b, c, q);
    RootAddedOld(s, c, q);
    DestroyedData(b, d, c, gone);
    OtherSpace(b, d, c, gone, q);
    forall pg | UserPage(pg)
      ensures LeafOf(b.phys, q, pg) == LeafOf(s1.phys, q, pg)
    {
      assert SoftAt(s1, b, p, c, q, pg);
    }
  }

  /** The drop of a half-built child. */
  method DropChild(m: MemoryMapper, ghost s: State, ghost s1: State, ghost p: Frame, c: Frame)
    requires Inv(s) && Nonempty(s, {}) && Attached(s, {}) && |s.kernel| == 512 && c in s.refs && s.refs[c] == 0
    requires s1 == RootAdded(s, c) && CloneFailed(s1, m.View(), p, c, c) && IsRoot(s1, c) && IsRoot(s, p)
    modifies m`phys, m`refs, m`level, m`owner, m`holders
    ensures m.Valid() && Abandoned(s, m.View()) && Spaces(m.phys, m.level) == Spaces(s.phys, s.level)
    ensures OnlyMarked(s, m.View(), p) && KeepsPrivate(old(m.View()), m.View())
  {
    hide KeepsPrivate;
    ghost var b := m.View();
    RootAddedInv(s, c);
    RootsKept(s1, b, c);
    RootUnowned(b, c);
    ghost var gone := m.DestroyUserTable(c, 4);
    DestroyedKeeps(b, m.View(), c, gone);
    AbandonedOk(s, s1, b, m.View(), c, gone);
    AbandonedNonempty(s, s1, b, m.View(), c, gone);
    DestroyedShape(b, m.View(), c, gone);
    AbandonedViews(s, s1, b, m.View(), p, c, gone);
    forall q | IsRoot(s, q) && q != p
      ensures Leaves(m.phys, q) == Leaves(s.phys, q)
    {
      OthersUnmarked(s, b, m.View(), p, c, gone, q);
    }
    forall pg | UserPage(pg)
      ensures KeptOrMarked(LeafOf(s.phys, p, pg), LeafOf(m.phys, p, pg))
    {
      ParentMarked(s, b, m.View(), p, c, gone, pg);
    }
  }

  lemma AbandonedViews(s: State, s1: State, b: State, d: State, p: Frame, c: Frame, gone: set<Frame>)
    requires Inv(s) && |s.kernel| == 512 && c in s.refs && Count(s, c) == 0 && s1 == RootAdded(s, c) && Inv(s1)
    requires CloneFailed(s1, b, p, c, c) && Destroyed(b, d, c, gone) && IsRoot(b, c)
    ensures Spaces(d.phys, d.level) == Spaces(s.phys, s.level)
  {
    RootAddedViews(s, c);
    ForkLeavesOthers(s1, b, p, c);
    DestroyedViews(b, d, c, gone);
    AddRemove(Spaces(s.phys, s.level), c, imap[], SpaceOf(b.phys, c));
  }

  lemma AddRemove<V>(m: map<Frame, V>, c: Frame, v: V, w: V)
    requires c !in m
    ensures m[c := v][c := w] - {c} == m
  {
  }
}
