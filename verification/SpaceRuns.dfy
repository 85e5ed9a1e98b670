/**
 Runs of address-space operations. The copy-on-write kernel is shown to refine the
 eager machine over every run, and what its tables and counts are along the way.
 */
module SpaceRuns {
  import opened Base
  import opened PageTables
  import opened PageSteps
  import opened PageWalk
  import opened SpaceView
  import opened PageEffects
  import opened PagePaths
  import opened RegionSteps
  import opened MemoryMapping
  import opened PrivateFrames
  import opened SpaceOps

  ghost function EagerRun(w: World, ops: seq<Op>, outs: seq<Outcome>): World
    requires |ops| == |outs|
  {
    if ops == [] then w
    else EagerStep(EagerRun(w, ops[..|ops| - 1], outs[..|outs| - 1]), ops[|ops| - 1], outs[|outs| - 1])
  }

  method SpaceOp(m: MemoryMapper, live: set<Frame>, op: Op) returns (out: Outcome, after: set<Frame>)
    requires m.Valid() && Roots(m, live) && !OnPrivate(op)
    modifies m
    ensures m.Valid() && Roots(m, after) && m.holders == old(m.holders) && KeepsPrivate(old(m.View()), m.View())
    ensures Spaces(m.phys, m.level) == SpaceStep(old(Spaces(m.phys, m.level)), op, out)
    ensures out.Created? ==> out.created !in live
    ensures old(m.shortages) <= m.shortages
    ensures Answers(SpacePermitted(old(Spaces(m.phys, m.level)), op), op, out, m.shortages - old(m.shortages))
  {
    hide SpacePermitted, Spaces, AfterWrite, AfterMapRegion, AfterUnmap, AfterMove, Inv, Nonempty, Attached,
         KeepsPrivate;
    after := live;
    match op {
      case New => out, after := StepNew(m, live);
      case Fork(space) => out, after := StepFork(m, live, space);
      case Write(space, pg, offset, value) => out := StepWrite(m, live, space, pg, offset, value);
      case MapRegion(space, start, pages, perms) => out := StepMapRegion(m, live, space, start, pages, perms);
      case Unmap(space, pg) => out := StepUnmap(m, live, space, pg);
      case Move(space, pg, dst) => out := StepMove(m, live, space, pg, dst);
      case Drop(space) => out, after := StepDrop(m, live, space);
    }
  }

  method PrivateOp(m: MemoryMapper, live: set<Frame>, mine: set<Frame>, ghost base: map<Frame, nat>, op: Op)
    returns (out: Outcome, kept: set<Frame>)
    requires m.Valid() && Roots(m, live) && Owns(m.View(), base, mine) && OnPrivate(op)
    modifies m
    ensures m.Valid() && Roots(m, live) && Owns(m.View(), base, kept) && old(m.shortages) <= m.shortages
    ensures WorldOf(m.View(), kept) == EagerStep(old(WorldOf(m.View(), mine)), op, out)
    ensures Answers(old(Permitted(WorldOf(m.View(), mine), op)), op, out, m.shortages - old(m.shortages))
    ensures !out.Created? && (out.Got? ==> out.got !in mine)
  {
    hide WorldOf, Inv, Nonempty, Attached, Owns, AfterFill, AfterInstall;
    kept := mine;
    match op {
      case Hold => out, kept := StepHold(m, live, mine, base);
      case Fill(f, offset, value) => out := StepFill(m, live, mine, base, f, offset, value);
      case Install(_, _, _, _) => out, kept := StepInstall(m, live, mine, base, op);
      case Discard(f) => out, kept := StepDiscard(m, live, mine, base, f);
    }
  }

  method Step(m: MemoryMapper, live: set<Frame>, mine: set<Frame>, ghost base: map<Frame, nat>, op: Op)
    returns (out: Outcome, after: set<Frame>, kept: set<Frame>)
    requires m.Valid() && Roots(m, live) && Owns(m.View(), base, mine)
    modifies m
    ensures m.Valid() && Roots(m, after) && Owns(m.View(), base, kept) && old(m.shortages) <= m.shortages
    ensures WorldOf(m.View(), kept) == EagerStep(old(WorldOf(m.View(), mine)), op, out)
    ensures Answers(old(Permitted(WorldOf(m.View(), mine), op)), op, out, m.shortages - old(m.shortages))
    ensures out.Created? ==> out.created !in live
    ensures out.Got? ==> out.got !in mine
  {
    hide Spaces, HeldBytes, SpaceStep, SpacePermitted, Inv, Nonempty, Attached, Owns, KeepsPrivate, AfterFill,
         AfterInstall;
    after, kept := live, mine;
    if OnPrivate(op) {
      out, kept := PrivateOp(m, live, mine, base, op);
    } else {
      ghost var s := m.View();
      out, after := SpaceOp(m, live, op);
      OwnsKept(s, m.View(), base, mine);
    }
  }

  /** Every run of the copy-on-write kernel shows programs what the eager machine would. */
  method Execute(m: MemoryMapper, live: set<Frame>, mine: set<Frame>, ghost base: map<Frame, nat>, ops: seq<Op>)
    returns (outs: seq<Outcome>, after: set<Frame>, kept: set<Frame>)
    requires m.Valid() && Roots(m, live) && Owns(m.View(), base, mine)
    modifies m
    ensures m.Valid() && Roots(m, after) && Owns(m.View(), base, kept)
    ensures |outs| == |ops| && WorldOf(m.View(), kept) == EagerRun(old(WorldOf(m.View(), mine)), ops, outs)
    ensures NoReuse(old(WorldOf(m.View(), mine)), ops, outs) && Sound(old(WorldOf(m.View(), mine)), ops, outs)
    ensures old(m.shortages) + Wronged(old(WorldOf(m.View(), mine)), ops, outs) <= m.shortages
  {
    hide EagerStep, Permitted, Inv, Nonempty, Attached, Owns, Spaces;
    outs, after, kept := [], live, mine;
    ghost var w := WorldOf(m.View(), mine);
    while |outs| < |ops|
      invariant |outs| <= |ops| && m.Valid() && Roots(m, after) && Owns(m.View(), base, kept)
      invariant WorldOf(m.View(), kept) == EagerRun(w, ops[..|outs|], outs)
      invariant NoReuse(w, ops[..|outs|], outs) && Sound(w, ops[..|outs|], outs)
      invariant old(m.shortages) + Wronged(w, ops[..|outs|], outs) <= m.shortages
    {
      SpacesAreRoots(m, after);
      var out;
      ghost var before := ops[..|outs|];
      assert ops[..|outs| + 1][..|outs|] == before && (outs + [Done])[..|outs|] == outs;
      out, after, kept := Step(m, after, kept, base, ops[|outs|]);
      assert (outs + [out])[..|outs|] == outs;
      outs := outs + [out];
    }
    assert ops[..|outs|] == ops;
  }

  /** A space that is created, or a frame that is handed out, was not there before. */
  ghost predicate NoReuse(w: World, ops: seq<Op>, outs: seq<Outcome>)
    requires |ops| == |outs|
  {
    ops == [] ||
    (var n := |ops| - 1;
     var before := EagerRun(w, ops[..n], outs[..n]);
     && NoReuse(w, ops[..n], outs[..n])
     && (outs[n].Created? ==> outs[n].created !in before.spaces) && (outs[n].Got? ==> outs[n].got !in before.held))
  }

  /** No operation succeeds that the eager machine would refuse. */
  ghost predicate Sound(w: World, ops: seq<Op>, outs: seq<Outcome>)
    requires |ops| == |outs|
  {
    ops == [] ||
    (var n := |ops| - 1;
     && Sound(w, ops[..n], outs[..n])
     && (outs[n].Refused? || (Fits(ops[n], outs[n]) && Permitted(EagerRun(w, ops[..n], outs[..n]), ops[n]))))
  }

  /** How many operations were refused although the eager machine allows them. */
  ghost function Wronged(w: World, ops: seq<Op>, outs: seq<Outcome>): nat
    requires |ops| == |outs|
  {
    if ops == [] then 0 else
      var n := |ops| - 1;
      Wronged(w, ops[..n], outs[..n]) + One(outs[n].Refused? && Permitted(EagerRun(w, ops[..n], outs[..n]), ops[n]))
  }

  /** The space an operation may change. */
  predicate Changes(op: Op, r: Frame) {
    match op
    case New => false
    case Fork(_) => false
    case Hold => false
    case Fill(_, _, _) => false
    case Discard(_) => false
    case _ => op.space == r
  }

  lemma StepIsolation(w: World, op: Op, out: Outcome, r: Frame)
    requires r in w.spaces && !Changes(op, r) && (out.Created? ==> out.created != r)
    ensures var b := EagerStep(w, op, out); r in b.spaces && b.spaces[r] == w.spaces[r]
  {
    if op.MapRegion? && out.Done? && op.space in w.spaces {
      var view := UserPageView(ZeroPage(), op.perms.ReadWrite?, op.perms.ReadExecute?, true);
      ZeroPagesElsewhere(w.spaces, op.space, op.start, op.pages, view, r);
    }
  }

  /** Isolation over whole runs: what others do, and forking a space, never changes a byte it reads. */
  lemma {:induction false} Isolation(w: World, ops: seq<Op>, outs: seq<Outcome>, r: Frame)
    requires |ops| == |outs| && r in w.spaces && NoReuse(w, ops, outs)
    requires forall k | 0 <= k < |ops| :: !Changes(ops[k], r)
    ensures r in EagerRun(w, ops, outs).spaces && EagerRun(w, ops, outs).spaces[r] == w.spaces[r]
  {
    if ops != [] {
      var n := |ops| - 1;
      Isolation(w, ops[..n], outs[..n], r);
      StepIsolation(EagerRun(w, ops[..n], outs[..n]), ops[n], outs[n], r);
    }
  }

  /** A private frame is changed by nothing but what is done to it by name. */
  predicate Uses(op: Op, f: Frame) {
    (op.Fill? || op.Install? || op.Discard?) && op.frame == f
  }

  lemma {:induction false} PrivateIsolation(w: World, ops: seq<Op>, outs: seq<Outcome>, f: Frame)
    requires |ops| == |outs| && f in w.held && NoReuse(w, ops, outs)
    requires forall k | 0 <= k < |ops| :: !Uses(ops[k], f)
    ensures f in EagerRun(w, ops, outs).held && EagerRun(w, ops, outs).held[f] == w.held[f]
  {
    if ops != [] {
      var n := |ops| - 1;
      PrivateIsolation(w, ops[..n], outs[..n], f);
    }
  }

  // ------------------------------------------------------------------ accounting

  ghost predicate NoRoots(s: State) {
    forall r :: !IsRoot(s, r)
  }

  /** Without a root there is no table. */
  lemma {:induction false} TableHasRoot(s: State, t: Frame)
    requires Inv(s) && Attached(s, {}) && t in s.level
    ensures !NoRoots(s)
    decreases 4 - s.level[t]
  {
    if s.level[t] == 4 {
      assert IsRoot(s, t);
    } else {
      assert UpAt(s.phys, s.level, s.owner, t);
      TableHasRoot(s, s.owner[t].table);
    }
  }

  lemma OnlyHolders(s: State, f: Frame)
    requires Inv(s) && Attached(s, {}) && NoRoots(s)
    ensures f in s.refs <==> f in s.holders
    ensures f in s.refs ==> s.refs[f] == s.holders[f]
  {
    assert AccountedAt(s, f);
    if t :| t in s.level {
      TableHasRoot(s, t);
    }
    assert LeafSlots(s.phys, s.level, f) == {};
  }

  /** Once every space is dropped, every refcount is back where it was before the first was made. */
  lemma AllDropped(s: State, b: State)
    requires Inv(s) && Attached(s, {}) && NoRoots(s) && Inv(b) && Attached(b, {}) && NoRoots(b)
    requires b.holders == s.holders
    ensures b.refs == s.refs
  {
    forall f
      ensures f in b.refs <==> f in s.refs
      ensures f in s.refs ==> b.refs[f] == s.refs[f]
    {
      OnlyHolders(s, f);
      OnlyHolders(b, f);
    }
  }

  /**
   A kernel's whole life: from boot it shows programs what the eager machine
   would, and once every space is dropped and every private frame given back,
   every refcount is what it was at boot.
   */
  method Lifetime(memory: Memory, counts: map<Frame, nat>, kernel: seq<Entry>, failAfter: int, ops: seq<Op>)
    returns (m: MemoryMapper, outs: seq<Outcome>, live: set<Frame>, mine: set<Frame>)
    requires |kernel| == 512 && counts.Keys <= memory.Keys
    ensures fresh(m) && m.Valid() && |outs| == |ops| && live == Spaces(m.phys, m.level).Keys
    ensures WorldOf(m.View(), mine) == EagerRun(World(map[], map[]), ops, outs)
    ensures Sound(World(map[], map[]), ops, outs) && Wronged(World(map[], map[]), ops, outs) <= m.shortages
    ensures live == {} && mine == {} ==> m.refs == counts
  {
    m := new MemoryMapper(memory, counts, kernel, failAfter);
    ghost var s := m.View();
    assert WithMine(counts, {}) == counts;
    assert WorldOf(s, {}) == World(map[], map[]);
    outs, live, mine := Execute(m, {}, {}, counts, ops);
    SpacesAreRoots(m, live);
    if live == {} && mine == {} {
      AllDropped(s, m.View());
    }
  }

  // ------------------------------------------------------------------ tree shape

  /** A page mapped through the table `t`. */
  ghost predicate Serves(s: State, t: Frame, r: Frame, pg: Page) {
    && IsRoot(s, r) && UserPage(pg) && LeafOf(s.phys, r, pg).Used?
    && t in s.level && 1 <= s.level[t] <= 4 && TableAt(s.phys, r, pg, 4 - s.level[t]) == Some(t)
  }

  /**
   Between calls the tables are exactly those some mapped page needs: every table
   below a root is on the way to a leaf. So pruning has given up all the others.
   */
  lemma {:induction false} NoIdleTable(s: State, t: Frame) returns (r: Frame, pg: Page)
    requires Inv(s) && Nonempty(s, {}) && Attached(s, {}) && t in s.owner
    ensures Serves(s, t, r, pg)
    decreases if t in s.level then s.level[t] else 0
  {
    OwnedTable(s, t);
    var i: nat :| i < 512 && EntryAt(s.phys, t, i).Used?;
    if s.level[t] == 1 {
      r, pg := LeafSlotReached(s, t, i);
    } else {
      assert UpAt(s.phys, s.level, s.owner, t) && DownAt(s.phys, s.level, s.owner, t, i);
      r, pg := NoIdleTable(s, EntryAt(s.phys, t, i).frame);
      ServesParent(s, EntryAt(s.phys, t, i).frame, r, pg);
    }
  }

  lemma ServesParent(s: State, c: Frame, r: Frame, pg: Page)
    requires Inv(s) && Serves(s, c, r, pg) && c in s.owner
    ensures Serves(s, s.owner[c].table, r, pg)
  {
    OwnerSlot(s, c);
    PruneParent(s, r, pg, 4 - s.level[c]);
  }

  /** `b` is `s` with entries cleared, none changed otherwise. */
  ghost predicate EntriesCleared(s: State, b: State) {
    forall t, i: nat :: ClearedAt(s, b, t, i)
  }

  ghost predicate ClearedAt(s: State, b: State, t: Frame, i: nat) {
    EntryAt(b.phys, t, i).Unused? || EntryAt(b.phys, t, i) == EntryAt(s.phys, t, i)
  }

  lemma {:induction false} PruneClears(s: State, r: Frame, pg: Page, d: nat)
    requires |pg| == 4 && d <= 3
    ensures EntriesCleared(s, PrunePath(s, r, pg, d))
    ensures forall t | t in PrunePath(s, r, pg, d).level ::
              t in s.level && PrunePath(s, r, pg, d).level[t] == s.level[t]
    decreases d
  {
    if Prunable(s, r, pg, d) {
      var f := TableAt(s.phys, r, pg, d).value;
      var c := Pruned1(s, f);
      PruneClears(c, r, pg, d - 1);
      var b := PrunePath(s, r, pg, d);
      forall t, i: nat
        ensures ClearedAt(s, b, t, i)
      {
        assert ClearedAt(c, b, t, i) && ClearedAt(s, c, t, i);
      }
    }
  }

  lemma {:induction false} ClearedWalk(s: State, b: State, r: Frame, pg: Page, d: nat)
    requires EntriesCleared(s, b) && d <= |pg| && TableAt(b.phys, r, pg, d).Some?
    ensures TableAt(s.phys, r, pg, d) == TableAt(b.phys, r, pg, d)
  {
    if 0 < d {
      ClearedWalk(s, b, r, pg, d - 1);
      assert ClearedAt(s, b, TableAt(b.phys, r, pg, d - 1).value, pg[d - 1]);
    }
  }

  lemma ServesBoth(s: State, b: State, t: Frame, r: Frame, pg: Page)
    requires EntriesCleared(s, b) && SameViews(s, b) && IsRoot(s, r) && IsRoot(b, r) && UserPage(pg)
    requires Serves(s, t, r, pg) || Serves(b, t, r, pg)
    requires t in b.level ==> t in s.level && b.level[t] == s.level[t]
    ensures Serves(s, t, r, pg) && TableAt(b.phys, r, pg, 4 - s.level[t]) == Some(t)
  {
    hide SameViews, EntriesCleared;
    SameLeafBack(s, b, r, pg);
    var d := if t in b.level then 4 - b.level[t] else 4 - s.level[t];
    WalkPrefix(b.phys, r, pg, d);
    ClearedWalk(s, b, r, pg, d);
  }

  lemma {:induction false} WalkPrefix(phys: Memory, r: Frame, pg: Page, d: nat)
    requires |pg| == 4 && d <= 3 && TableAt(phys, r, pg, 3).Some?
    ensures TableAt(phys, r, pg, d).Some?
    decreases 3 - d
  {
    if d < 3 {
      WalkPrefix(phys, r, pg, d + 1);
    }
  }

  /** Pruning gives up exactly the tables below the root that no mapped page goes through. */
  lemma PruneExact(s: State, r: Frame, pg: Page, d: nat, t: Frame)
    requires Inv(s) && Attached(s, {}) && IsRoot(s, r) && UserPage(pg) && d <= 3 && TableAt(s.phys, r, pg, d).Some?
    requires Nonempty(s, {TableAt(s.phys, r, pg, d).value}) && t in s.owner
    ensures t in PrunePath(s, r, pg, d).level <==> exists q, pg' :: Serves(s, t, q, pg')
  {
    hide Inv, Nonempty, Attached, SameViews, EntriesCleared, PrunePath, Serves;
    var b := PrunePath(s, r, pg, d);
    PrunePathOk(s, r, pg, d);
    PruneClears(s, r, pg, d);
    if t in b.level {
      KeptServes(s, b, t);
    }
    if q, pg' :| Serves(s, t, q, pg') {
      ServesKept(s, b, t, q, pg');
    }
  }

  lemma KeptServes(s: State, b: State, t: Frame)
    requires Inv(s) && Inv(b) && Nonempty(b, {}) && Attached(b, {}) && SameViews(s, b) && EntriesCleared(s, b)
    requires t in s.owner && t in b.level && t in s.level && b.level[t] == s.level[t]
    ensures exists q, pg :: Serves(s, t, q, pg)
  {
    hide SameViews, EntriesCleared, Nonempty;
    assert UpAt(s.phys, s.level, s.owner, t);
    var q, pg := NoIdleTable(b, t);
    RootsShared(s, b, q);
    ServesBoth(s, b, t, q, pg);
  }

  lemma ServesKept(s: State, b: State, t: Frame, q: Frame, pg: Page)
    requires Inv(b) && SameViews(s, b) && EntriesCleared(s, b) && Serves(s, t, q, pg)
    requires forall u | u in b.level :: u in s.level && b.level[u] == s.level[u]
    ensures t in b.level
  {
    hide SameViews, EntriesCleared;
    RootsShared(s, b, q);
    ServesBoth(s, b, t, q, pg);
    WalkLevel(b, q, pg, 4 - s.level[t]);
  }

  lemma RootsShared(s: State, b: State, q: Frame)
    requires SameViews(s, b)
    ensures IsRoot(s, q) <==> IsRoot(b, q)
  {
    assert q in Spaces(s.phys, s.level) <==> IsRoot(s, q);
    assert q in Spaces(b.phys, b.level) <==> IsRoot(b, q);
  }

  // ------------------------------------------------------------ leaves and pages

  /**
   The leaf slots that a refcount counts are the mapped pages, one for one: each
   page mapped to the frame has its slot among them, each of them is the slot of
   such a page, and no two pages share a slot.
   */
  lemma LeafSlotsArePages(s: State, f: Frame, slot: Slot) returns (r: Frame, pg: Page)
    requires Inv(s) && Attached(s, {}) && slot in LeafSlots(s.phys, s.level, f)
    ensures IsRoot(s, r) && UserPage(pg) && SlotOf(s.phys, r, pg) == Some(slot)
    ensures LeafOf(s.phys, r, pg).Used? && LeafOf(s.phys, r, pg).frame == f
    ensures forall q, pg' | IsRoot(s, q) && UserPage(pg') && SlotOf(s.phys, q, pg') == Some(slot) :: q == r && pg' == pg
  {
    LeafSlotsMember(s.phys, s.level, f, slot);
    r, pg := LeafSlotReached(s, slot.table, slot.index);
    SlotIsLeafSlot(s, r, pg);
    forall q, pg' | IsRoot(s, q) && UserPage(pg') && SlotOf(s.phys, q, pg') == Some(slot)
      ensures q == r && pg' == pg
    {
      SlotUnique(s, q, pg', r, pg);
    }
  }

  lemma PagesAreLeafSlots(s: State, r: Frame, pg: Page)
    requires Inv(s) && IsRoot(s, r) && UserPage(pg) && LeafOf(s.phys, r, pg).Used?
    ensures SlotOf(s.phys, r, pg).Some?
    ensures SlotOf(s.phys, r, pg).value in LeafSlots(s.phys, s.level, LeafOf(s.phys, r, pg).frame)
  {
    SlotIsLeafSlot(s, r, pg);
    LeafSlotsMember(s.phys, s.level, LeafOf(s.phys, r, pg).frame, SlotOf(s.phys, r, pg).value);
  }

  /** A frame behind a writable leaf is behind no other: a store through it shows in one page only. */
  lemma WritableIsUnshared(s: State, r: Frame, pg: Page, q: Frame, pg': Page)
    requires Inv(s) && IsRoot(s, r) && UserPage(pg) && IsRoot(s, q) && UserPage(pg')
    requires LeafOf(s.phys, r, pg).Used? && LeafOf(s.phys, r, pg).flags.writable
    requires LeafOf(s.phys, q, pg').Used? && LeafOf(s.phys, q, pg').frame == LeafOf(s.phys, r, pg).frame
    ensures r == q && pg == pg' && Count(s, LeafOf(s.phys, r, pg).frame) == 1
  {
    SlotIsLeafSlot(s, r, pg);
    SlotIsLeafSlot(s, q, pg');
    var at, other := SlotOf(s.phys, r, pg).value, SlotOf(s.phys, q, pg').value;
    LeafIsOk(s, at.table, at.index);
    if at == other {
      SlotUnique(s, r, pg, q, pg');
    } else {
      assert AccountedAt(s, LeafOf(s.phys, r, pg).frame);
      TwoLeaves(s, at, other, LeafOf(s.phys, r, pg).frame);
    }
  }

  /** The entry that a walk meets after following `d` indices of a page. */
  function OnPath(phys: Memory, r: Frame, pg: Page, d: nat): Entry
    requires |pg| == 4 && d <= 3
  {
    match TableAt(phys, r, pg, d)
    case None => Unused
    case Some(t) => EntryAt(phys, t, pg[d])
  }

  lemma PathOpen(s: State, r: Frame, pg: Page, d: nat)
    requires Inv(s) && IsRoot(s, r) && UserPage(pg) && d < 3 && TableAt(s.phys, r, pg, d + 1).Some?
    ensures TableAt(s.phys, r, pg, d).Some? && OnPath(s.phys, r, pg, d).Used?
    ensures var flags := OnPath(s.phys, r, pg, d).flags;
            flags.present && flags.user && flags.writable && !flags.noExecute
  {
    WalkLevel(s, r, pg, d);
    assert DownAt(s.phys, s.level, s.owner, TableAt(s.phys, r, pg, d).value, pg[d]);
  }

  /**
   What programs are shown is what the processor allows: a right needs it from
   every entry on the walk (Intel SDM Vol. 3A, section 4.6), and a store to a
   copy-on-write leaf faults into a copy.
   */
  lemma RightsAreShown(s: State, r: Frame, pg: Page)
    requires Inv(s) && IsRoot(s, r) && UserPage(pg) && pg in SpaceOf(s.phys, r)
    ensures forall d | 0 <= d <= 3 :: OnPath(s.phys, r, pg, d).Used? && OnPath(s.phys, r, pg, d).flags.present
    ensures var view := SpaceOf(s.phys, r)[pg];
            && (view.user <==> forall d | 0 <= d <= 3 :: OnPath(s.phys, r, pg, d).flags.user)
            && (view.executable <==> forall d | 0 <= d <= 3 :: !OnPath(s.phys, r, pg, d).flags.noExecute)
            && (view.writable <==> || (forall d | 0 <= d <= 3 :: OnPath(s.phys, r, pg, d).flags.writable)
                                   || OnPath(s.phys, r, pg, 3).flags.cow)
  {
    PathOpen(s, r, pg, 2);
    PathOpen(s, r, pg, 1);
    PathOpen(s, r, pg, 0);
    SlotIsLeafSlot(s, r, pg);
    var at := SlotOf(s.phys, r, pg).value;
    LeafIsOk(s, at.table, at.index);
    hide Inv;
    forall d | 0 <= d <= 3
      ensures OnPath(s.phys, r, pg, d).Used? && OnPath(s.phys, r, pg, d).flags.present
      ensures d < 3 ==> var flags := OnPath(s.phys, r, pg, d).flags; flags.user && flags.writable && !flags.noExecute
    {
      assert d == 0 || d == 1 || d == 2 || d == 3;
    }
    assert OnPath(s.phys, r, pg, 3) == LeafOf(s.phys, r, pg);
  }

  /** The slots a root shares with the kernel are the kernel's, in every space. */
  lemma KernelSlotsFixed(s: State, r: Frame, i: nat)
    requires Inv(s) && IsRoot(s, r) && i < 512 && !UserSlot(4, i)
    ensures EntryAt(s.phys, r, i) == s.kernel[i]
  {
    assert KernelAt(s.phys, s.level, s.kernel, r, i);
  }
}
