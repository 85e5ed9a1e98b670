/**
 Fork: a child tree grown beside the parent's, sharing its leaves copy-on-write.
 Two relations follow a run of it. `ClonedTo` says, page by page, which leaves are
 shared so far; `Cloning` says, frame by frame, what may have changed at all.
 */
module CloneSteps {
  import opened Base
  import opened PageTables
  import opened PageSteps
  import opened PageWalk
  import opened PageEffects
  import opened PagePaths
  import opened CowSteps

  // ------------------------------------------------------------- page by page

  /** A page below the slots `prefix + [0], ..., prefix + [i - 1]`. */
  ghost predicate Under(prefix: Page, i: nat, pg: Page) {
    |prefix| < |pg| && pg[..|prefix|] == prefix && pg[|prefix|] < i
  }

  ghost predicate ClonedAt(s0: State, s: State, p: Frame, c: Frame, prefix: Page, i: nat, q: Frame, pg: Page) {
    IsRoot(s0, q) && UserPage(pg) ==>
      LeafOf(s.phys, q, pg) ==
        if (q == p || q == c) && Under(prefix, i, pg) then CowEntry(LeafOf(s0.phys, p, pg)) else LeafOf(s0.phys, q, pg)
  }

  /** Parent and child share the pages below the first `i` slots; every other leaf is as before. */
  ghost predicate ClonedTo(s0: State, s: State, p: Frame, c: Frame, prefix: Page, i: nat) {
    forall q, pg :: ClonedAt(s0, s, p, c, prefix, i, q, pg)
  }

  /** Outside the child a leaf is as before, or a leaf of the parent marked copy-on-write. */
  ghost predicate SoftAt(s0: State, s: State, p: Frame, c: Frame, q: Frame, pg: Page) {
    IsRoot(s0, q) && UserPage(pg) && q != c ==>
      || LeafOf(s.phys, q, pg) == LeafOf(s0.phys, q, pg)
      || (q == p && LeafOf(s.phys, q, pg) == CowEntry(LeafOf(s0.phys, q, pg)))
  }

  ghost predicate Softened(s0: State, s: State, p: Frame, c: Frame) {
    forall q, pg :: SoftAt(s0, s, p, c, q, pg)
  }

  lemma ClonedStart(s: State, p: Frame, c: Frame, prefix: Page)
    ensures ClonedTo(s, s, p, c, prefix, 0)
  {
  }

  lemma ClonedSoft(s0: State, s: State, p: Frame, c: Frame, prefix: Page, i: nat)
    requires ClonedTo(s0, s, p, c, prefix, i)
    ensures Softened(s0, s, p, c)
  {
    forall q, pg
      ensures SoftAt(s0, s, p, c, q, pg)
    {
      assert ClonedAt(s0, s, p, c, prefix, i, q, pg);
    }
  }

  lemma SoftTwice(s0: State, s: State, a: State, b: State, p: Frame, c: Frame)
    requires Softened(s0, s, p, c) && SameTranslation(s, a) && Softened(a, b, p, c)
    requires forall q :: IsRoot(s0, q) ==> IsRoot(s, q) && IsRoot(a, q)
    ensures Softened(s0, b, p, c)
  {
    forall q, pg
      ensures SoftAt(s0, b, p, c, q, pg)
    {
      assert IsRoot(s0, q) ==> IsRoot(s, q) && IsRoot(a, q);
      assert SoftAt(s0, s, p, c, q, pg) && SameLeaf(s, a, q, pg) && SoftAt(a, b, p, c, q, pg);
    }
  }

  /** The pages below one more slot, cloned in a call of their own. */
  lemma ClonedDeeper(s0: State, s: State, a: State, b: State, p: Frame, c: Frame, prefix: Page, i: nat)
    requires |prefix| < 3 && ClonedTo(s0, s, p, c, prefix, i) && SameTranslation(s, a)
    requires ClonedTo(a, b, p, c, prefix + [i], 512) && IsRoot(s0, p) && IsRoot(s0, c)
    requires forall q :: IsRoot(s0, q) ==> IsRoot(s, q) && IsRoot(a, q)
    ensures ClonedTo(s0, b, p, c, prefix, i + 1)
  {
    var next := i + 1;
    forall q, pg
      ensures ClonedAt(s0, b, p, c, prefix, next, q, pg)
    {
      assert IsRoot(s0, q) ==> IsRoot(s, q) && IsRoot(a, q);
      assert IsRoot(s0, p) ==> IsRoot(s, p) && IsRoot(a, p);
      assert ClonedAt(s0, s, p, c, prefix, i, q, pg) && SameLeaf(s, a, q, pg);
      assert ClonedAt(s0, s, p, c, prefix, i, p, pg) && SameLeaf(s, a, p, pg);
      assert ClonedAt(a, b, p, c, prefix + [i], 512, q, pg);
      if UserPage(pg) {
        UnderDeeper(prefix, i, pg);
      }
    }
  }

  lemma UnderDeeper(prefix: Page, i: nat, pg: Page)
    requires |prefix| < 3 && UserPage(pg)
    ensures Under(prefix, i + 1, pg) <==> Under(prefix, i, pg) || Under(prefix + [i], 512, pg)
    ensures !(Under(prefix, i, pg) && Under(prefix + [i], 512, pg))
  {
    assert pg[..|prefix| + 1] == pg[..|prefix|] + [pg[|prefix|]];
    if pg[..|prefix| + 1] == prefix + [i] {
      assert pg[..|prefix| + 1][..|prefix|] == (prefix + [i])[..|prefix|];
      assert pg[..|prefix| + 1][|prefix|] == i;
    }
  }

  /** A slot with nothing below it on either side. */
  lemma ClonedSkip(s0: State, s: State, p: Frame, c: Frame, prefix: Page, i: nat)
    requires |prefix| <= 3 && ClonedTo(s0, s, p, c, prefix, i) && IsRoot(s0, p) && IsRoot(s0, c)
    requires forall pg :: NothingAt(s, p, c, prefix, i, pg)
    ensures ClonedTo(s0, s, p, c, prefix, i + 1)
  {
    var next := i + 1;
    forall q, pg
      ensures ClonedAt(s0, s, p, c, prefix, next, q, pg)
    {
      assert ClonedAt(s0, s, p, c, prefix, i, q, pg) && ClonedAt(s0, s, p, c, prefix, i, p, pg);
      assert NothingAt(s, p, c, prefix, i, pg);
    }
  }

  ghost predicate NothingAt(s: State, p: Frame, c: Frame, prefix: Page, i: nat, pg: Page) {
    UserPage(pg) && |prefix| <= 3 && pg[..|prefix|] == prefix && pg[|prefix|] == i ==>
      LeafOf(s.phys, p, pg).Unused? && LeafOf(s.phys, c, pg).Unused?
  }

  // ------------------------------------------------------------ frame by frame

  ghost predicate SoftEntry(a: Entry, b: Entry) {
    b == a || b == CowEntry(a)
  }

  ghost predicate LeavesKept(x: Memory, y: Memory, t: Frame) {
    forall i: nat :: SoftEntry(EntryAt(x, t, i), EntryAt(y, t, i))
  }

  /** A table of `s0` keeps its place; its entries too, but for leaf marks and for `y`. */
  ghost predicate TableKept(s0: State, s: State, y: Frame, t: Frame) {
    t in s0.level ==>
      && t in s.level && s.level[t] == s0.level[t] && t in s0.phys && t in s.phys
      && (t in s.owner <==> t in s0.owner) && (t in s0.owner ==> s.owner[t] == s0.owner[t])
      && (t != y ==> if 1 < s0.level[t] then s.phys[t] == s0.phys[t] else LeavesKept(s0.phys, s.phys, t))
  }

  /** A table made since was free before and hangs below `y`. */
  ghost predicate MadeAt(s0: State, s: State, y: Frame, t: Frame) {
    t in s.level && t !in s0.level ==>
      && Count(s0, t) == 0 && s.level[t] < 4 && t in s.owner
      && (s.owner[t].table == y || (s.owner[t].table in s.level && s.owner[t].table !in s0.level))
  }

  /** References are only added, and no page in use is written. */
  ghost predicate FrameKept(s0: State, s: State, f: Frame) {
    && Count(s0, f) <= Count(s, f)
    && (f in s0.phys ==> f in s.phys)
    && (0 < Count(s0, f) && f !in s0.level && f in s0.phys ==> s.phys[f] == s0.phys[f])
  }

  ghost predicate KeptAt(s0: State, s: State, y: Frame, f: Frame) {
    TableKept(s0, s, y, f) && MadeAt(s0, s, y, f) && FrameKept(s0, s, f)
  }

  ghost predicate Cloning(s0: State, s: State, y: Frame) {
    s.holders == s0.holders && s.kernel == s0.kernel && forall f :: KeptAt(s0, s, y, f)
  }

  lemma CloningStart(s: State, y: Frame)
    requires TablesOk(s.phys, s.level)
    ensures Cloning(s, s, y)
  {
  }

  lemma CloningTwice(s0: State, s: State, b: State, y: Frame, z: Frame)
    requires Cloning(s0, s, y) && Cloning(s, b, z) && (z == y || (z !in s0.level && z in s.level))
    ensures Cloning(s0, b, y)
  {
    forall f
      ensures KeptAt(s0, b, y, f)
    {
      assert KeptAt(s0, s, y, f) && KeptAt(s, b, z, f) && KeptAt(s, b, z, z);
      if f in b.owner {
        assert KeptAt(s, b, z, b.owner[f].table) && KeptAt(s0, s, y, b.owner[f].table);
      }
      if f in s.owner {
        assert KeptAt(s, b, z, s.owner[f].table);
      }
    }
  }

  // ------------------------------------------------------- where the clone stands

  /** A page that begins with `prefix`. */
  function Pad(prefix: Page): (pg: Page)
    requires |prefix| <= 4
    ensures |pg| == 4 && pg[..|prefix|] == prefix
  {
    (prefix + [0, 0, 0, 0])[..4]
  }

  lemma {:induction false} SamePrefixWalk(phys: Memory, r: Frame, pg: Page, pg': Page, d: nat)
    requires d <= |pg| && d <= |pg'| && pg[..d] == pg'[..d]
    ensures TableAt(phys, r, pg, d) == TableAt(phys, r, pg', d)
  {
    if 0 < d {
      assert pg[..d][..d - 1] == pg[..d - 1] && pg'[..d][..d - 1] == pg'[..d - 1];
      assert pg[..d][d - 1] == pg'[..d][d - 1];
      SamePrefixWalk(phys, r, pg, pg', d - 1);
    }
  }

  /** The parent's table `x` and the child's table `y` below the same slots. */
  ghost predicate CloneAt(s: State, p: Frame, c: Frame, prefix: Page, x: Frame, y: Frame) {
    && |prefix| <= 3 && UserPage(Pad(prefix)) && IsRoot(s, p) && IsRoot(s, c) && p != c
    && TableAt(s.phys, p, Pad(prefix), |prefix|) == Some(x) && TableAt(s.phys, c, Pad(prefix), |prefix|) == Some(y)
  }

  lemma CloneTables(s: State, p: Frame, c: Frame, prefix: Page, x: Frame, y: Frame)
    requires Inv(s) && CloneAt(s, p, c, prefix, x, y)
    ensures x != y && x in s.level && y in s.level && s.level[x] == s.level[y] == 4 - |prefix|
    ensures IsTable(s.phys, x) && IsTable(s.phys, y)
    ensures 0 < |prefix| ==> x in s.owner && y in s.owner
  {
    WalkLevel(s, p, Pad(prefix), |prefix|);
    WalkLevel(s, c, Pad(prefix), |prefix|);
    if x == y {
      WalkUnique(s, p, Pad(prefix), c, Pad(prefix), |prefix|);
    }
    if 0 < |prefix| {
      PruneParent(s, p, Pad(prefix), |prefix|);
      PruneParent(s, c, Pad(prefix), |prefix|);
    }
  }

  lemma {:induction false} WalkKept(s0: State, s: State, y: Frame, r: Frame, pg: Page, d: nat, k: nat)
    requires DownOk(s0.phys, s0.level, s0.owner) && IsRoot(s0, r) && UserPage(pg) && d <= k <= 3
    requires Cloning(s0, s, y) && y in s0.level && s0.level[y] <= 4 - k && TableAt(s0.phys, r, pg, d).Some?
    ensures TableAt(s.phys, r, pg, d) == TableAt(s0.phys, r, pg, d)
  {
    if 0 < d {
      WalkKept(s0, s, y, r, pg, d - 1, k);
      WalkLevel(s0, r, pg, d - 1);
      assert KeptAt(s0, s, y, TableAt(s0.phys, r, pg, d - 1).value);
    }
  }

  lemma CloneAtKept(s0: State, s: State, p: Frame, c: Frame, prefix: Page, x: Frame, y: Frame)
    requires Inv(s0) && CloneAt(s0, p, c, prefix, x, y) && Cloning(s0, s, y)
    ensures CloneAt(s, p, c, prefix, x, y)
  {
    CloneTables(s0, p, c, prefix, x, y);
    WalkKept(s0, s, y, p, Pad(prefix), |prefix|, |prefix|);
    WalkKept(s0, s, y, c, Pad(prefix), |prefix|, |prefix|);
    assert KeptAt(s0, s, y, p) && KeptAt(s0, s, y, c);
  }

  lemma RootsKept(s0: State, s: State, y: Frame)
    requires Cloning(s0, s, y)
    ensures forall q :: IsRoot(s0, q) <==> IsRoot(s, q)
  {
    forall q
      ensures IsRoot(s0, q) <==> IsRoot(s, q)
    {
      assert KeptAt(s0, s, y, q);
    }
  }

  /** Slots of `y` from `i` on are still unused. */
  ghost predicate Pending(phys: Memory, y: Frame, k: nat, i: nat) {
    forall j: nat | i <= j && UserSlot(k, j) :: EntryAt(phys, y, j).Unused?
  }

  /** Below `i`, where `x` has an entry `y` has one. */
  ghost predicate Mirrored(phys: Memory, x: Frame, y: Frame, k: nat, i: nat) {
    forall j: nat | j < i && UserSlot(k, j) && EntryAt(phys, x, j).Used? :: EntryAt(phys, y, j).Used?
  }

  ghost predicate CloneState(s: State, y: Frame) {
    Inv(s) && Attached(s, {}) && Nonempty(s, {y})
  }

  /** What the loop over the slots of `x` and `y` maintains. */
  ghost predicate CloneLoop(s0: State, s: State, p: Frame, c: Frame, prefix: Page, x: Frame, y: Frame, i: nat) {
    && CloneState(s, y) && Inv(s0) && CloneAt(s0, p, c, prefix, x, y) && CloneAt(s, p, c, prefix, x, y)
    && Cloning(s0, s, y) && ClonedTo(s0, s, p, c, prefix, i)
    && Pending(s.phys, y, 4 - |prefix|, i) && Mirrored(s.phys, x, y, 4 - |prefix|, i)
  }

  /** All pages below `prefix` are shared and nothing else has changed. */
  ghost predicate CloneDone(s0: State, s: State, p: Frame, c: Frame, prefix: Page, y: Frame) {
    && Inv(s) && Attached(s, {}) && Nonempty(s, {}) && Cloning(s0, s, y) && ClonedTo(s0, s, p, c, prefix, 512)
  }

  /** Given up half way: the parent's pages still show the same. */
  ghost predicate CloneFailed(s0: State, s: State, p: Frame, c: Frame, y: Frame) {
    Inv(s) && Attached(s, {}) && Cloning(s0, s, y) && Softened(s0, s, p, c)
  }

  lemma CloneStart(s: State, p: Frame, c: Frame, prefix: Page, x: Frame, y: Frame)
    requires CloneState(s, y) && CloneAt(s, p, c, prefix, x, y) && Pending(s.phys, y, 4 - |prefix|, 0)
    ensures CloneLoop(s, s, p, c, prefix, x, y, 0)
  {
    ClonedStart(s, p, c, prefix);
    CloningStart(s, y);
  }

  /** A slot the parent does not use. */
  lemma CloneSkip(s0: State, s: State, p: Frame, c: Frame, prefix: Page, x: Frame, y: Frame, i: nat)
    requires CloneLoop(s0, s, p, c, prefix, x, y, i) && (!UserSlot(4 - |prefix|, i) || EntryAt(s.phys, x, i).Unused?)
    ensures CloneLoop(s0, s, p, c, prefix, x, y, i + 1)
  {
    forall pg
      ensures NothingAt(s, p, c, prefix, i, pg)
    {
      if UserPage(pg) && pg[..|prefix|] == prefix && pg[|prefix|] == i {
        EmptyBelow(s.phys, p, prefix, x, i, pg);
        EmptyBelow(s.phys, c, prefix, y, i, pg);
      }
    }
    ClonedSkip(s0, s, p, c, prefix, i);
  }

  lemma EmptyBelow(phys: Memory, r: Frame, prefix: Page, t: Frame, i: nat, pg: Page)
    requires |prefix| <= 3 && TableAt(phys, r, Pad(prefix), |prefix|) == Some(t) && EntryAt(phys, t, i).Unused?
    requires UserPage(pg) && pg[..|prefix|] == prefix && pg[|prefix|] == i
    ensures LeafOf(phys, r, pg).Unused?
  {
    SamePrefixWalk(phys, r, pg, Pad(prefix), |prefix|);
    if |prefix| < 3 {
      NoWalkBelow(phys, r, pg, |prefix| + 1, 3);
    }
  }

  lemma {:induction false} NoWalkBelow(phys: Memory, r: Frame, pg: Page, d: nat, k: nat)
    requires d <= k <= |pg| && TableAt(phys, r, pg, d).None?
    ensures TableAt(phys, r, pg, k).None?
  {
    if d < k {
      NoWalkBelow(phys, r, pg, d, k - 1);
    }
  }

  lemma CloneEnd(s0: State, s: State, p: Frame, c: Frame, prefix: Page, x: Frame, y: Frame)
    requires CloneLoop(s0, s, p, c, prefix, x, y, 512)
    ensures CloneDone(s0, s, p, c, prefix, y)
  {
    CloneTables(s, p, c, prefix, x, y);
    if 0 < |prefix| {
      var j: nat :| j < 512 && EntryAt(s.phys, x, j).Used?;
      assert EntryAt(s.phys, y, j).Used?;
    } else {
      RootUnowned(s, y);
    }
  }

  lemma CloneGiveUp(s0: State, s: State, p: Frame, c: Frame, prefix: Page, x: Frame, y: Frame, i: nat)
    requires CloneLoop(s0, s, p, c, prefix, x, y, i)
    ensures CloneFailed(s0, s, p, c, y)
  {
    ClonedSoft(s0, s, p, c, prefix, i);
  }

  // ------------------------------------------------------------ one slot further

  /** A free frame allocated and linked as an empty table of the child. */
  function Sprout(s: State, y: Frame, i: nat, f: Frame, flags: Flags): State
    requires IsTable(s.phys, y) && i < 512 && y in s.level && 0 < s.level[y] && f != y
  {
    Link(s.(refs := s.refs[f := 1], holders := s.holders[f := 1]), y, i, f, flags)
  }

  ghost predicate CanSprout(s: State, y: Frame, i: nat, f: Frame, flags: Flags) {
    && Inv(s) && TableSlotOf(s, y, i) && EntryAt(s.phys, y, i).Unused? && ParentFlags(flags)
    && f in s.refs && Count(s, f) == 0
  }

  lemma SproutStep(s: State, y: Frame, i: nat, f: Frame, flags: Flags)
    requires CanSprout(s, y, i, f, flags)
    ensures f !in s.level && IsTable(s.phys, y) && f != y
    ensures var a, b := s.(refs := s.refs[f := 1], holders := s.holders[f := 1]), Sprout(s, y, i, f, flags);
            && Inv(b) && Linked(a, b, y, i, f, flags) && TableEmpty(b.phys, f)
            && NextTable(EntryAt(b.phys, y, i)) == Some(f) && SameTranslation(s, b)
  {
    AllocateInv(s, f);
    var a := s.(refs := s.refs[f := 1], holders := s.holders[f := 1]);
    LinkInv(a, y, i, f, flags);
    LinkTranslation(a, Sprout(s, y, i, f, flags), y, i, f, flags);
    SproutTranslation(s, a, Sprout(s, y, i, f, flags));
  }

  lemma SproutTranslation(s: State, a: State, b: State)
    requires a.phys == s.phys && a.level == s.level && SameTranslation(a, b)
    ensures SameTranslation(s, b)
  {
    forall r, pg
      ensures SameLeaf(s, b, r, pg)
    {
      assert SameLeaf(a, b, r, pg);
    }
  }

  lemma SproutShape(s: State, y: Frame, i: nat, f: Frame, flags: Flags)
    requires CanSprout(s, y, i, f, flags) && Nonempty(s, {y}) && Attached(s, {})
    ensures f !in s.level && IsTable(s.phys, y) && f != y && CloneState(Sprout(s, y, i, f, flags), f)
  {
    SproutStep(s, y, i, f, flags);
    var a := s.(refs := s.refs[f := 1], holders := s.holders[f := 1]);
    LinkNonempty(a, Sprout(s, y, i, f, flags), y, i, f, flags, {y});
    assert {y} - {y} + {f} == {f};
  }

  lemma SproutCloning(s: State, y: Frame, i: nat, f: Frame, flags: Flags)
    requires CanSprout(s, y, i, f, flags)
    ensures f !in s.level && IsTable(s.phys, y) && f != y && Cloning(s, Sprout(s, y, i, f, flags), y)
  {
    SproutStep(s, y, i, f, flags);
    var b := Sprout(s, y, i, f, flags);
    assert AccountedAt(s, f) && UpAt(s.phys, s.level, s.owner, f);
    forall g
      ensures KeptAt(s, b, y, g)
    {
    }
  }

  /** The call for the tables below slot `i` can begin. */
  lemma CloneEnter(s0: State, s: State, p: Frame, c: Frame, prefix: Page, x: Frame, y: Frame, i: nat, f: Frame)
    requires CloneLoop(s0, s, p, c, prefix, x, y, i) && |prefix| < 3 && UserSlot(4 - |prefix|, i)
    requires EntryAt(s.phys, x, i).Used? && f in s.refs && Count(s, f) == 0
    ensures var e := EntryAt(s.phys, x, i);
            && CanSprout(s, y, i, f, e.flags) && IsTable(s.phys, y) && f != y
            && var b := Sprout(s, y, i, f, e.flags);
               && CloneState(b, f) && CloneAt(b, p, c, prefix + [i], e.frame, f)
               && Pending(b.phys, f, 3 - |prefix|, 0)
  {
    CloneTables(s, p, c, prefix, x, y);
    var e := EntryAt(s.phys, x, i);
    assert DownAt(s.phys, s.level, s.owner, x, i);
    SproutStep(s, y, i, f, e.flags);
    SproutShape(s, y, i, f, e.flags);
    SproutCloning(s, y, i, f, e.flags);
    CloneAtKept(s, Sprout(s, y, i, f, e.flags), p, c, prefix, x, y);
    CloneAtDeeper(Sprout(s, y, i, f, e.flags), p, c, prefix, x, y, i, e.frame, f);
  }

  lemma CloneAtDeeper(b: State, p: Frame, c: Frame, prefix: Page, x: Frame, y: Frame, i: nat, u: Frame, v: Frame)
    requires CloneAt(b, p, c, prefix, x, y) && |prefix| < 3 && UserSlot(4 - |prefix|, i)
    requires NextTable(EntryAt(b.phys, x, i)) == Some(u) && NextTable(EntryAt(b.phys, y, i)) == Some(v)
    ensures CloneAt(b, p, c, prefix + [i], u, v)
  {
    var deeper := Pad(prefix + [i]);
    assert deeper[..|prefix|] == prefix && deeper[|prefix|] == i by {
      assert deeper[..|prefix| + 1][..|prefix|] == prefix;
      assert deeper[..|prefix| + 1][|prefix|] == i;
    }
    SamePrefixWalk(b.phys, p, deeper, Pad(prefix), |prefix|);
    SamePrefixWalk(b.phys, c, deeper, Pad(prefix), |prefix|);
    if 0 < |prefix| {
      assert deeper[0] == deeper[..|prefix|][0] == Pad(prefix)[..|prefix|][0] == Pad(prefix)[0];
    }
  }

  /** The call for the tables below slot `i` has returned. */
  lemma CloneReturn(s0: State, s: State, b: State, e: State, p: Frame, c: Frame, prefix: Page, x: Frame, y: Frame,
                    i: nat, f: Frame)
    requires CloneLoop(s0, s, p, c, prefix, x, y, i) && |prefix| < 3 && UserSlot(4 - |prefix|, i)
    requires EntryAt(s.phys, x, i).Used? && CanSprout(s, y, i, f, EntryAt(s.phys, x, i).flags)
    requires IsTable(s.phys, y) && f != y && b == Sprout(s, y, i, f, EntryAt(s.phys, x, i).flags)
    requires CloneDone(b, e, p, c, prefix + [i], f)
    ensures CloneLoop(s0, e, p, c, prefix, x, y, i + 1)
  {
    CloneTables(s, p, c, prefix, x, y);
    SproutStep(s, y, i, f, EntryAt(s.phys, x, i).flags);
    SproutCloning(s, y, i, f, EntryAt(s.phys, x, i).flags);
    ReturnCloning(s0, s, b, e, y, f);
    RootsKept(s0, s, y);
    RootsKept(s, b, y);
    ClonedDeeper(s0, s, b, e, p, c, prefix, i);
    CloneAtKept(s0, e, p, c, prefix, x, y);
    ReturnSlots(s, b, e, x, y, i, f, EntryAt(s.phys, x, i).flags, 4 - |prefix|);
  }

  lemma ReturnCloning(s0: State, s: State, b: State, e: State, y: Frame, f: Frame)
    requires Cloning(s0, s, y) && Cloning(s, b, y) && Cloning(b, e, f) && f !in s.level && f in b.level
    ensures Cloning(s0, e, y)
  {
    CloningTwice(s0, s, b, y, y);
    assert KeptAt(s0, s, y, f);
    CloningTwice(s0, b, e, y, f);
  }

  lemma ReturnSlots(s: State, b: State, e: State, x: Frame, y: Frame, i: nat, f: Frame, flags: Flags, k: nat)
    requires TablesOk(s.phys, s.level) && TableSlotOf(s, y, i) && x in s.level
            && s.level[x] == s.level[y] == k && x != y
    requires f !in s.level && Linked(s.(refs := s.refs[f := 1], holders := s.holders[f := 1]), b, y, i, f, flags)
    requires Cloning(b, e, f) && Pending(s.phys, y, k, i) && Mirrored(s.phys, x, y, k, i)
    ensures Pending(e.phys, y, k, i + 1) && Mirrored(e.phys, x, y, k, i + 1)
  {
    assert KeptAt(b, e, f, x) && KeptAt(b, e, f, y);
    forall j: nat
      ensures EntryAt(e.phys, x, j) == EntryAt(s.phys, x, j)
      ensures EntryAt(e.phys, y, j) == if j == i then Used(f, flags) else EntryAt(s.phys, y, j)
    {
      assert EntryAt(e.phys, x, j) == EntryAt(b.phys, x, j);
      assert EntryAt(e.phys, y, j) == EntryAt(b.phys, y, j);
    }
  }

  /** The call for the tables below slot `i` has failed. */
  lemma CloneReturnFailed(s0: State, s: State, b: State, e: State, p: Frame, c: Frame, prefix: Page, x: Frame, y: Frame,
                          i: nat, f: Frame)
    requires CloneLoop(s0, s, p, c, prefix, x, y, i) && |prefix| < 3 && UserSlot(4 - |prefix|, i)
    requires EntryAt(s.phys, x, i).Used? && CanSprout(s, y, i, f, EntryAt(s.phys, x, i).flags)
    requires IsTable(s.phys, y) && f != y && b == Sprout(s, y, i, f, EntryAt(s.phys, x, i).flags)
    requires CloneFailed(b, e, p, c, f)
    ensures CloneFailed(s0, e, p, c, y)
  {
    SproutStep(s, y, i, f, EntryAt(s.phys, x, i).flags);
    SproutCloning(s, y, i, f, EntryAt(s.phys, x, i).flags);
    ReturnCloning(s0, s, b, e, y, f);
    RootsKept(s0, s, y);
    RootsKept(s, b, y);
    ClonedSoft(s0, s, p, c, prefix, i);
    SoftTwice(s0, s, b, e, p, c);
  }

  // -------------------------------------------------------------- sharing a leaf

  /** The parent's leaf marked, its frame retained, and the child given the same leaf. */
  function Shared(s: State, at: Slot, to: Slot): State
    requires IsTableNow(s.phys, at) && IsTableNow(s.phys, to) && EntryAt(s.phys, at.table, at.index).Used?
  {
    var e := CowEntry(EntryAt(s.phys, at.table, at.index));
    State(Put(Put(s.phys, at.table, at.index, e), to.table, to.index, e),
          Plus(s.refs, e.frame), s.level, s.owner, s.holders, s.kernel)
  }

  ghost predicate CanShare(s: State, at: Slot, to: Slot) {
    && Inv(s) && LeafSlotOf(s, at.table, at.index) && LeafSlotOf(s, to.table, to.index) && at.table != to.table
    && EntryAt(s.phys, at.table, at.index).Used? && EntryAt(s.phys, to.table, to.index).Unused?
  }

  /** The parent's leaf marked, nothing else. */
  function Marked(s: State, at: Slot): State
    requires IsTableNow(s.phys, at)
  {
    s.(phys := Put(s.phys, at.table, at.index, CowEntry(EntryAt(s.phys, at.table, at.index))))
  }

  lemma ShareInv(s: State, at: Slot, to: Slot)
    requires CanShare(s, at, to)
    ensures IsTableNow(s.phys, at) && IsTableNow(s.phys, to) && EntryAt(s.phys, at.table, at.index).frame in s.refs
    ensures Inv(Marked(s, at)) && Inv(Shared(s, at, to))
  {
    var e := EntryAt(s.phys, at.table, at.index);
    LeafIsOk(s, at.table, at.index);
    SetLeafFlagsInv(s, at.table, at.index, CowFlags(e.flags));
    var a := Marked(s, at);
    RetainInv(a, at.table, at.index);
    var r := a.(refs := Plus(a.refs, e.frame), holders := Plus(a.holders, e.frame));
    MapLeafInv(r, to.table, to.index, e.frame, CowFlags(e.flags));
    TwiceSame(s.holders, e.frame);
  }

  lemma ShareCloning(s: State, at: Slot, to: Slot)
    requires CanShare(s, at, to) && IsTableNow(s.phys, at) && IsTableNow(s.phys, to)
    ensures Cloning(s, Shared(s, at, to), to.table)
  {
    var b := Shared(s, at, to);
    forall g
      ensures KeptAt(s, b, to.table, g)
    {
    }
  }

  lemma ShareNonempty(s: State, at: Slot, to: Slot)
    requires CanShare(s, at, to) && IsTableNow(s.phys, at) && IsTableNow(s.phys, to) && Nonempty(s, {to.table})
    ensures Nonempty(Shared(s, at, to), {to.table})
  {
    var b := Shared(s, at, to);
    forall t | t in b.owner && t != to.table
      ensures !TableEmpty(b.phys, t)
    {
      var j: nat :| j < 512 && EntryAt(s.phys, t, j).Used?;
      assert EntryAt(b.phys, t, j).Used?;
    }
  }

  /** The two leaves of one page, and only they, become the shared leaf. */
  lemma SharePages(s: State, p: Frame, c: Frame, pg: Page, at: Slot, to: Slot)
    requires CanShare(s, at, to) && IsRoot(s, p) && IsRoot(s, c) && UserPage(pg)
    requires SlotOf(s.phys, p, pg) == Some(at) && SlotOf(s.phys, c, pg) == Some(to)
    ensures IsTableNow(s.phys, at) && IsTableNow(s.phys, to)
    ensures forall q, pg' :: BothChanged(s, Shared(s, at, to), p, c, pg, q, pg')
  {
    ShareInv(s, at, to);
    var a, b := Marked(s, at), Shared(s, at, to);
    var e := CowEntry(EntryAt(s.phys, at.table, at.index));
    PutIsLeafPut(s, a, at.table, at.index, e);
    LeafPutTranslation(s, a, p, pg, e);
    LeafPutWalk(s, a, at.table, at.index, e, c, pg, 3);
    PutIsLeafPut(a, b, to.table, to.index, e);
    LeafPutTranslation(a, b, c, pg, e);
    forall q, pg'
      ensures BothChanged(s, b, p, c, pg, q, pg')
    {
      assert ChangedAt(s, a, p, pg, e, q, pg') && ChangedAt(a, b, c, pg, e, q, pg');
    }
  }

  ghost predicate BothChanged(s: State, b: State, p: Frame, c: Frame, pg: Page, q: Frame, pg': Page) {
    IsRoot(s, q) && UserPage(pg') && |pg| == 4 ==>
      LeafOf(b.phys, q, pg') ==
        if (q == p || q == c) && pg' == pg then CowEntry(LeafOf(s.phys, p, pg)) else LeafOf(s.phys, q, pg')
  }

  lemma ClonedLeaf(s0: State, s: State, b: State, p: Frame, c: Frame, prefix: Page, i: nat)
    requires |prefix| == 3 && ClonedTo(s0, s, p, c, prefix, i) && IsRoot(s0, p) && IsRoot(s0, c)
    requires forall q :: IsRoot(s0, q) <==> IsRoot(s, q)
    requires forall q, pg' :: BothChanged(s, b, p, c, prefix + [i], q, pg')
    ensures ClonedTo(s0, b, p, c, prefix, i + 1)
  {
    var next := i + 1;
    forall q, pg
      ensures ClonedAt(s0, b, p, c, prefix, next, q, pg)
    {
      assert ClonedAt(s0, s, p, c, prefix, i, q, pg) && ClonedAt(s0, s, p, c, prefix, i, p, pg);
      assert BothChanged(s, b, p, c, prefix + [i], q, pg);
      assert IsRoot(s0, q) <==> IsRoot(s, q);
      if UserPage(pg) {
        UnderLeaf(prefix, i, pg);
      }
    }
  }

  lemma UnderLeaf(prefix: Page, i: nat, pg: Page)
    requires |prefix| == 3 && UserPage(pg)
    ensures Under(prefix, i + 1, pg) <==> Under(prefix, i, pg) || pg == prefix + [i]
    ensures !(Under(prefix, i, pg) && pg == prefix + [i])
  {
    assert pg == pg[..3] + [pg[3]];
  }

  lemma CloneLeafSlots(s: State, p: Frame, c: Frame, prefix: Page, x: Frame, y: Frame, i: nat)
    requires Inv(s) && CloneAt(s, p, c, prefix, x, y) && |prefix| == 3 && i < 512
    ensures UserPage(prefix + [i])
    ensures SlotOf(s.phys, p, prefix + [i]) == Some(Slot(x, i)) && SlotOf(s.phys, c, prefix + [i]) == Some(Slot(y, i))
  {
    var pg := prefix + [i];
    assert pg[..3] == prefix;
    SamePrefixWalk(s.phys, p, pg, Pad(prefix), 3);
    SamePrefixWalk(s.phys, c, pg, Pad(prefix), 3);
    forall k | 0 <= k < 3
      ensures pg[k] == Pad(prefix)[k]
    {
      assert Pad(prefix)[..3][k] == Pad(prefix)[k];
    }
  }

  lemma ShareSlots(s: State, x: Frame, y: Frame, i: nat)
    requires CanShare(s, Slot(x, i), Slot(y, i)) && IsTableNow(s.phys, Slot(x, i)) && IsTableNow(s.phys, Slot(y, i))
    requires Pending(s.phys, y, 1, i) && Mirrored(s.phys, x, y, 1, i)
    ensures var b := Shared(s, Slot(x, i), Slot(y, i)); Pending(b.phys, y, 1, i + 1) && Mirrored(b.phys, x, y, 1, i + 1)
  {
  }

  /** One leaf of the parent shared with the child. */
  lemma CloneShare(s0: State, s: State, p: Frame, c: Frame, prefix: Page, x: Frame, y: Frame, i: nat)
    requires CloneLoop(s0, s, p, c, prefix, x, y, i) && |prefix| == 3 && i < 512 && EntryAt(s.phys, x, i).Used?
    ensures CanShare(s, Slot(x, i), Slot(y, i)) && IsTableNow(s.phys, Slot(x, i)) && IsTableNow(s.phys, Slot(y, i))
    ensures CloneLoop(s0, Shared(s, Slot(x, i), Slot(y, i)), p, c, prefix, x, y, i + 1)
  {
    CloneTables(s, p, c, prefix, x, y);
    var at, to := Slot(x, i), Slot(y, i);
    var b := Shared(s, at, to);
    ShareInv(s, at, to);
    ShareNonempty(s, at, to);
    ShareSlots(s, x, y, i);
    ShareCloning(s, at, to);
    CloningTwice(s0, s, b, y, y);
    CloneAtKept(s0, b, p, c, prefix, x, y);
    CloneLeafSlots(s, p, c, prefix, x, y, i);
    SharePages(s, p, c, prefix + [i], at, to);
    RootsKept(s0, s, y);
    ClonedLeaf(s0, s, b, p, c, prefix, i);
  }
}
