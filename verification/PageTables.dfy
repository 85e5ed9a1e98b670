/**
 Four-level page tables in physical memory (Intel SDM Vol. 3A, section 4.5).
 One physical memory holds both data frames and table frames; every table other
 than a root is named by exactly one slot, which makes the tables below each
 root a tree. Each reference counted by the allocator is held by a leaf, by a
 table or by a holder outside the tables.
 */
module PageTables {
  import opened Base

  type Frame = nat

  datatype Flags = Flags(present: bool, writable: bool, user: bool, huge: bool, noExecute: bool, cow: bool)

  datatype Entry = Unused | Used(frame: Frame, flags: Flags)

  datatype Content = Data(bytes: seq<bv8>) | Table(entries: seq<Entry>)

  datatype Slot = Slot(table: Frame, index: nat)

  /** Four table indices, from the root down. */
  type Page = seq<nat>

  type Memory = map<Frame, Content>

  const KERNEL_HEAP_SLOT: nat := 136
  const KERNEL_STACK_SLOT: nat := 170
  const KERNEL_MMIO_SLOT: nat := 171

  predicate IsKernelReservedSlot(slot: nat) {
    slot == KERNEL_HEAP_SLOT || slot == KERNEL_STACK_SLOT || slot == KERNEL_MMIO_SLOT
  }

  /** Slots that belong to the user tree of an address space. */
  predicate UserSlot(level: nat, i: nat) {
    i < 512 && (level == 4 ==> i < 256 && !IsKernelReservedSlot(i))
  }

  predicate UserPage(pg: Page) {
    |pg| == 4 && UserSlot(4, pg[0]) && pg[1] < 512 && pg[2] < 512 && pg[3] < 512
  }

  /**
   Memory and refcounts, with the ghost view of which frames are tables (and at
   which level), which slot names each table, and how many references of each
   frame are held outside the tables.
   */
  datatype State = State(
    phys: Memory,
    refs: map<Frame, nat>,
    level: map<Frame, nat>,
    owner: map<Frame, Slot>,
    holders: map<Frame, nat>,
    kernel: seq<Entry>)

  function EntryAt(phys: Memory, t: Frame, i: nat): Entry {
    if t in phys && phys[t].Table? && i < |phys[t].entries| then phys[t].entries[i] else Unused
  }

  ghost predicate IsTable(phys: Memory, t: Frame) {
    t in phys && phys[t].Table? && |phys[t].entries| == 512
  }

  function EmptyTable(): (c: Content)
    ensures c.Table? && |c.entries| == 512
    ensures forall i | 0 <= i < 512 :: c.entries[i].Unused?
  {
    Table(seq(512, _ => Unused))
  }

  function Put(phys: Memory, t: Frame, i: nat, e: Entry): (r: Memory)
    requires IsTable(phys, t) && i < 512
    ensures IsTable(r, t)
  {
    phys[t := Table(phys[t].entries[i := e])]
  }

  function NextTable(e: Entry): Option<Frame> {
    if e.Used? && e.flags.present && !e.flags.huge then Some(e.frame) else None
  }

  /** The table reached after following `depth` indices of a page. */
  function TableAt(phys: Memory, root: Frame, pg: Page, depth: nat): Option<Frame>
    requires depth <= |pg|
  {
    if depth == 0 then Some(root) else
      match TableAt(phys, root, pg, depth - 1)
      case None => None
      case Some(t) => NextTable(EntryAt(phys, t, pg[depth - 1]))
  }

  /** The leaf entry of a page; unused when some table is missing. */
  function LeafOf(phys: Memory, root: Frame, pg: Page): Entry
    requires |pg| == 4
  {
    match TableAt(phys, root, pg, 3)
    case None => Unused
    case Some(t) => EntryAt(phys, t, pg[3])
  }

  // ---------------------------------------------------------------- invariant

  ghost predicate TablesOk(phys: Memory, level: map<Frame, nat>) {
    forall t | t in level :: IsTable(phys, t) && 1 <= level[t] <= 4
  }

  /** A used user slot above the leaves names a table one level down, which it owns. */
  ghost predicate DownAt(phys: Memory, level: map<Frame, nat>, owner: map<Frame, Slot>, t: Frame, i: nat) {
    t in level && 1 < level[t] && UserSlot(level[t], i) && EntryAt(phys, t, i).Used? ==>
      var e := EntryAt(phys, t, i);
      && ParentFlags(e.flags)
      && e.frame in level && level[e.frame] == level[t] - 1
      && e.frame in owner && owner[e.frame] == Slot(t, i)
  }

  ghost predicate DownOk(phys: Memory, level: map<Frame, nat>, owner: map<Frame, Slot>) {
    forall t, i: nat :: DownAt(phys, level, owner, t, i)
  }

  /** Entries above the leaves let through whatever the leaf allows. */
  predicate ParentFlags(flags: Flags) {
    flags.present && !flags.huge && flags.writable && flags.user && !flags.noExecute
  }

  /** An owned table is named by the slot that owns it. */
  ghost predicate UpAt(phys: Memory, level: map<Frame, nat>, owner: map<Frame, Slot>, c: Frame) {
    c in owner ==>
      var s := owner[c];
      && c in level && level[c] < 4
      && s.table in level && level[s.table] == level[c] + 1 && UserSlot(level[s.table], s.index)
      && EntryAt(phys, s.table, s.index).Used? && EntryAt(phys, s.table, s.index).frame == c
  }

  ghost predicate UpOk(phys: Memory, level: map<Frame, nat>, owner: map<Frame, Slot>) {
    forall c :: UpAt(phys, level, owner, c)
  }

  function LeafEntry(phys: Memory, level: map<Frame, nat>, slot: Slot): Entry {
    if slot.table in level && level[slot.table] == 1 && slot.index < 512
    then EntryAt(phys, slot.table, slot.index) else Unused
  }

  /** Leaves are present, name managed data frames, and are writable only when unshared. */
  ghost predicate LeavesOk(phys: Memory, level: map<Frame, nat>, refs: map<Frame, nat>) {
    forall slot :: LeafAtOk(phys, level, refs, slot)
  }

  ghost predicate LeafAtOk(phys: Memory, level: map<Frame, nat>, refs: map<Frame, nat>, slot: Slot) {
    LeafEntry(phys, level, slot).Used? ==> LeafOk(phys, level, refs, LeafEntry(phys, level, slot))
  }

  ghost predicate LeafOk(phys: Memory, level: map<Frame, nat>, refs: map<Frame, nat>, e: Entry) {
    && e.Used? && LeafFlags(e.flags)
    && e.frame in refs && e.frame !in level && e.frame in phys && IsPageData(phys[e.frame])
    && (e.flags.writable ==> refs[e.frame] == 1)
  }

  predicate IsPageData(c: Content) {
    c.Data? && |c.bytes| == 0x1000
  }

  predicate LeafFlags(flags: Flags) {
    flags.present && !flags.huge && !(flags.writable && flags.cow)
  }

  /** The leaf slots that name a frame, over all address spaces. */
  ghost function LeafSlots(phys: Memory, level: map<Frame, nat>, f: Frame): set<Slot> {
    set t, i: nat | t in level && i < 512 && Names(phys, level, Slot(t, i), f) :: Slot(t, i)
  }

  ghost predicate Names(phys: Memory, level: map<Frame, nat>, slot: Slot, f: Frame) {
    LeafEntry(phys, level, slot).Used? && LeafEntry(phys, level, slot).frame == f
  }

  /** Every reference the allocator counts is held by a leaf, a table or an outside holder. */
  ghost predicate AccountedAt(s: State, f: Frame) {
    && (f in s.holders <==> f in s.refs)
    && (f in s.level ==> f in s.refs && s.holders[f] == 0)
    && (f in s.refs ==> s.refs[f] == |LeafSlots(s.phys, s.level, f)| + One(f in s.level) + s.holders[f])
  }

  ghost predicate Accounted(s: State) {
    forall f :: AccountedAt(s, f)
  }

  ghost predicate KernelAt(phys: Memory, level: map<Frame, nat>, kernel: seq<Entry>, r: Frame, i: nat) {
    r in level && level[r] == 4 && i < |kernel| && !UserSlot(4, i) ==> EntryAt(phys, r, i) == kernel[i]
  }

  ghost predicate KernelOk(phys: Memory, level: map<Frame, nat>, kernel: seq<Entry>) {
    |kernel| == 512 && forall r, i: nat :: KernelAt(phys, level, kernel, r, i)
  }

  ghost predicate Inv(s: State) {
    && TablesOk(s.phys, s.level)
    && DownOk(s.phys, s.level, s.owner)
    && UpOk(s.phys, s.level, s.owner)
    && LeavesOk(s.phys, s.level, s.refs)
    && Accounted(s)
    && KernelOk(s.phys, s.level, s.kernel)
    && (forall f | f in s.refs :: f in s.phys)
  }

  /** References of a frame held outside the tables. */
  function Held(s: State, f: Frame): nat {
    if f in s.holders then s.holders[f] else 0
  }

  /** References of a frame counted by the allocator. */
  function Count(s: State, f: Frame): nat {
    if f in s.refs then s.refs[f] else 0
  }

  ghost predicate IsRoot(s: State, r: Frame) {
    r in s.level && s.level[r] == 4
  }

  /** Every table below a root is owned, `except` apart: no table floats free. */
  ghost predicate Attached(s: State, except: set<Frame>) {
    forall c | c in s.level && s.level[c] < 4 && c !in except :: c in s.owner
  }

  predicate TableEmpty(phys: Memory, t: Frame) {
    forall i: nat | i < 512 :: EntryAt(phys, t, i).Unused?
  }

  /** No owned table is empty, `except` apart. */
  ghost predicate Nonempty(s: State, except: set<Frame>) {
    forall t | t in s.owner && t !in except :: !TableEmpty(s.phys, t)
  }

  // ------------------------------------------------------------- leaf counting

  lemma LeafSlotsMember(phys: Memory, level: map<Frame, nat>, f: Frame, slot: Slot)
    ensures slot in LeafSlots(phys, level, f) <==> Names(phys, level, slot, f)
  {
    if Names(phys, level, slot, f) {
      assert slot == Slot(slot.table, slot.index);
    }
  }

  lemma SameLeavesSameSlots(a: State, b: State, f: Frame)
    requires forall slot :: LeafEntry(b.phys, b.level, slot) == LeafEntry(a.phys, a.level, slot)
    ensures LeafSlots(b.phys, b.level, f) == LeafSlots(a.phys, a.level, f)
  {
    forall slot
      ensures slot in LeafSlots(b.phys, b.level, f) <==> slot in LeafSlots(a.phys, a.level, f)
    {
      LeafSlotsMember(a.phys, a.level, f, slot);
      LeafSlotsMember(b.phys, b.level, f, slot);
    }
  }

  /** `b` is `a` with one leaf slot rewritten from `x` to `y`. */
  ghost predicate LeafChanged(a: State, b: State, at: Slot, x: Entry, y: Entry) {
    && LeafEntry(a.phys, a.level, at) == x
    && (forall slot ::
          LeafEntry(b.phys, b.level, slot) == if slot == at then y else LeafEntry(a.phys, a.level, slot))
  }

  function NamesFrame(e: Entry, f: Frame): nat {
    One(e.Used? && e.frame == f)
  }

  lemma LeafCountChanged(a: State, b: State, at: Slot, x: Entry, y: Entry, f: Frame)
    requires LeafChanged(a, b, at, x, y)
    ensures |LeafSlots(b.phys, b.level, f)| + NamesFrame(x, f) == |LeafSlots(a.phys, a.level, f)| + NamesFrame(y, f)
  {
    var m, n := LeafSlots(a.phys, a.level, f), LeafSlots(b.phys, b.level, f);
    forall slot
      ensures slot in m <==> Names(a.phys, a.level, slot, f)
      ensures slot in n <==> Names(b.phys, b.level, slot, f)
    {
      LeafSlotsMember(a.phys, a.level, f, slot);
      LeafSlotsMember(b.phys, b.level, f, slot);
    }
    OneMemberChanged(m, n, at);
  }

  lemma OneMemberChanged<T>(m: set<T>, n: set<T>, at: T)
    requires forall e | e != at :: e in n <==> e in m
    ensures |n| + One(at in m) == |m| + One(at in n)
  {
    assert m - {at} == n - {at};
    assert |m - {at}| == |m| - One(at in m);
    assert |n - {at}| == |n| - One(at in n);
  }

  /** A frame whose references are all held outside is named by no leaf and is no table. */
  lemma OnlyHeld(s: State, f: Frame)
    requires AccountedAt(s, f) && f in s.refs && Count(s, f) == Held(s, f)
    ensures f !in s.level
    ensures forall slot :: !Names(s.phys, s.level, slot, f)
  {
    forall slot
      ensures !Names(s.phys, s.level, slot, f)
    {
      LeafSlotsMember(s.phys, s.level, f, slot);
    }
  }
}
