/**
 Operations on address spaces and on the private frames of page-ins, each against
 a machine that has no frames, tables or marks: a space is just its pages, fork
 copies them all at once, and an operation that fails changes nothing.
 */
module SpaceOps {
  import opened Base
  import opened PageTables
  import opened PageSteps
  import opened SpaceView
  import opened PageEffects
  import opened PagePaths
  import opened UserRange
  import opened RegionSteps
  import opened DestroySteps
  import opened MemoryMapping
  import opened AddressSpaces
  import opened ForkViews
  import opened CowSteps
  import opened PrivateFrames

  datatype Op =
    | New
    | Fork(space: Frame)
    | Write(space: Frame, page: Page, offset: nat, value: bv8)
    | MapRegion(space: Frame, start: nat, pages: nat, perms: UserPerms)
    | Unmap(space: Frame, page: Page)
    | Move(space: Frame, page: Page, dst: Page)
    | Drop(space: Frame)
    | Hold
    | Fill(frame: Frame, offset: nat, value: bv8)
    | Install(space: Frame, page: Page, frame: Frame, perms: UserPerms)
    | Discard(frame: Frame)

  datatype Outcome = Refused | Done | Created(created: Frame) | Got(got: Frame)

  type SpaceMap = map<Frame, Space>

  /** What programs see, and the private frames that page-ins hold. */
  datatype World = World(spaces: SpaceMap, held: map<Frame, seq<bv8>>)

  ghost function AfterWrite(w: SpaceMap, r: Frame, pg: Page, offset: nat, value: bv8): SpaceMap {
    if offset < 0x1000 && CanWrite(w, r, pg) then Written(w, r, pg, offset, value) else w
  }

  ghost function AfterMapRegion(w: SpaceMap, r: Frame, start: nat, pages: nat, perms: UserPerms): SpaceMap {
    var view := UserPageView(ZeroPage(), perms.ReadWrite?, perms.ReadExecute?, true);
    if r in w then WithZeroPages(w, r, start, pages, view) else w
  }

  ghost function AfterUnmap(w: SpaceMap, r: Frame, pg: Page): SpaceMap {
    if r in w then w[r := WithPage(w[r], pg, None)] else w
  }

  ghost function AfterMove(w: SpaceMap, r: Frame, pg: Page, dst: Page): SpaceMap {
    if r in w && pg in w[r] && pg != dst
    then w[r := WithPage(WithPage(w[r], pg, None), dst, Some(w[r][pg]))] else w
  }

  /** One operation on the spaces of the machine that copies eagerly. */
  ghost function SpaceStep(w: SpaceMap, op: Op, out: Outcome): SpaceMap {
    match (op, out)
    case (New, Created(c)) => w[c := imap[]]
    case (Fork(r), Created(c)) => if r in w then w[c := w[r]] else w
    case (Write(r, pg, offset, value), Done) => AfterWrite(w, r, pg, offset, value)
    case (MapRegion(r, start, pages, perms), Done) => AfterMapRegion(w, r, start, pages, perms)
    case (Unmap(r, pg), Done) => AfterUnmap(w, r, pg)
    case (Move(r, pg, dst), Done) => AfterMove(w, r, pg, dst)
    case (Drop(r), Done) => w - {r}
    case _ => w
  }

  ghost function AfterFill(w: World, f: Frame, offset: nat, value: bv8): World {
    if f in w.held && offset < |w.held[f]| then w.(held := w.held[f := w.held[f][offset := value]]) else w
  }

  ghost function AfterInstall(w: World, r: Frame, pg: Page, f: Frame, perms: UserPerms): World {
    if r in w.spaces && f in w.held
    then
      var view := UserPageView(w.held[f], perms.ReadWrite?, perms.ReadExecute?, true);
      World(w.spaces[r := WithPage(w.spaces[r], pg, Some(view))], w.held - {f})
    else w
  }

  /** One operation of the eager machine. */
  ghost function EagerStep(w: World, op: Op, out: Outcome): World {
    match (op, out)
    case (Hold, Got(f)) => w.(held := w.held[f := ZeroPage()])
    case (Fill(f, offset, value), Done) => AfterFill(w, f, offset, value)
    case (Install(r, pg, f, perms), Done) => AfterInstall(w, r, pg, f, perms)
    case (Discard(f), Done) => w.(held := w.held - {f})
    case _ => w.(spaces := SpaceStep(w.spaces, op, out))
  }

  predicate OnPrivate(op: Op) {
    op.Hold? || op.Fill? || op.Install? || op.Discard?
  }

  ghost predicate SpacePermitted(w: SpaceMap, op: Op) {
    match op
    case Fork(r) => r in w
    case Write(r, pg, offset, _) => offset < 0x1000 && CanWrite(w, r, pg)
    case MapRegion(r, start, pages, _) => r in w && UserRangeOk(start, pages) && NoneMapped(w[r], start, pages)
    case Unmap(r, pg) => r in w && pg in w[r]
    case Move(r, pg, dst) => r in w && UserPage(pg) && UserPage(dst) && (pg == dst || pg !in w[r] || dst !in w[r])
    case Drop(r) => r in w
    case _ => true
  }

  /** What the eager machine allows. */
  ghost predicate Permitted(w: World, op: Op) {
    match op
    case Fill(f, offset, _) => f in w.held && offset < 0x1000
    case Install(r, pg, f, _) => r in w.spaces && f in w.held && UserPage(pg) && pg !in w.spaces[r]
    case Discard(f) => f in w.held
    case _ => SpacePermitted(w.spaces, op)
  }

  ghost predicate NoneMapped(space: Space, start: nat, pages: nat) {
    forall k | 0 <= k < pages :: PageOf(start, k) !in space
  }

  /** A success is reported as one, and names what it made. */
  predicate Fits(op: Op, out: Outcome) {
    if op.New? || op.Fork? then out.Created? else if op.Hold? then out.Got? else out.Done?
  }

  /** One call answers as the eager machine would, unless it met a shortage. */
  ghost predicate Answers(permitted: bool, op: Op, out: Outcome, short: nat) {
    && (out.Refused? || Fits(op, out))
    && (out.Refused? <==> !permitted || short != 0)
  }

  ghost predicate Roots(m: MemoryMapper, live: set<Frame>)
    reads m
  {
    forall r :: r in live <==> IsRoot(m.View(), r)
  }

  method StepNew(m: MemoryMapper, live: set<Frame>) returns (out: Outcome, after: set<Frame>)
    requires m.Valid() && Roots(m, live)
    modifies m
    ensures m.Valid() && Roots(m, after) && m.holders == old(m.holders) && KeepsPrivate(old(m.View()), m.View())
    ensures out.Created? ==> out.created !in live
    ensures old(m.shortages) <= m.shortages
    ensures Answers(SpacePermitted(old(Spaces(m.phys, m.level)), New), New, out, m.shortages - old(m.shortages))
    ensures Spaces(m.phys, m.level) ==
            if out.Created? then old(Spaces(m.phys, m.level))[out.created := imap[]] else old(Spaces(m.phys, m.level))
  {
    hide KeepsPrivate;
    var r := NewAddressSpace(m);
    if r.Err? {
      return Refused, live;
    }
    RootsFromSpaces(m, live, r.value);
    return Created(r.value), live + {r.value};
  }

  /** The roots are the spaces there are. */
  lemma RootsFromSpaces(m: MemoryMapper, live: set<Frame>, c: Frame)
    requires Spaces(m.phys, m.level).Keys == live + {c}
    ensures Roots(m, live + {c})
  {
    forall r
      ensures r in live + {c} <==> IsRoot(m.View(), r)
    {
      assert r in Spaces(m.phys, m.level) <==> IsRoot(m.View(), r);
    }
  }

  lemma SpacesAreRoots(m: MemoryMapper, live: set<Frame>)
    requires Roots(m, live)
    ensures Spaces(m.phys, m.level).Keys == live
  {
    forall r
      ensures r in Spaces(m.phys, m.level).Keys <==> r in live
    {
      assert r in live <==> IsRoot(m.View(), r);
    }
  }

  method StepFork(m: MemoryMapper, live: set<Frame>, space: Frame) returns (out: Outcome, after: set<Frame>)
    requires m.Valid() && Roots(m, live)
    modifies m
    ensures m.Valid() && Roots(m, after) && m.holders == old(m.holders) && KeepsPrivate(old(m.View()), m.View())
    ensures out.Created? ==> out.created !in live && space in old(Spaces(m.phys, m.level))
    ensures old(m.shortages) <= m.shortages
    ensures Answers(SpacePermitted(old(Spaces(m.phys, m.level)), Fork(space)), Fork(space), out,
            m.shortages - old(m.shortages))
    ensures Spaces(m.phys, m.level) ==
            if out.Created? then old(Spaces(m.phys, m.level))[out.created := old(Spaces(m.phys, m.level))[space]]
            else old(Spaces(m.phys, m.level))
  {
    hide KeepsPrivate, Inv, Nonempty, Attached, Abandoned, LeavesShared, OnlyMarked;
    KeepsSelf(m.View());
    if space !in live {
      return Refused, live;
    }
    SpacesAreRoots(m, live);
    var r := CloneForChild(m, space);
    if r.Err? {
      RootsSame(m, live);
      return Refused, live;
    }
    RootsFromSpaces(m, live, r.value);
    return Created(r.value), live + {r.value};
  }

  lemma RootsSame(m: MemoryMapper, live: set<Frame>)
    requires Spaces(m.phys, m.level).Keys == live
    ensures Roots(m, live)
  {
    forall r
      ensures r in live <==> IsRoot(m.View(), r)
    {
      assert r in Spaces(m.phys, m.level) <==> IsRoot(m.View(), r);
    }
  }

  method StepWrite(m: MemoryMapper, live: set<Frame>, space: Frame, pg: Page, offset: nat, value: bv8)
    returns (out: Outcome)
    requires m.Valid() && Roots(m, live)
    modifies m
    ensures m.Valid() && Roots(m, live) && m.holders == old(m.holders) && KeepsPrivate(old(m.View()), m.View())
    ensures Spaces(m.phys, m.level) ==
            if out.Done? then AfterWrite(old(Spaces(m.phys, m.level)), space, pg, offset, value)
            else old(Spaces(m.phys, m.level))
    ensures old(m.shortages) <= m.shortages
    ensures Answers(SpacePermitted(old(Spaces(m.phys, m.level)), Write(space, pg, offset, value)),
                    Write(space, pg, offset, value), out, m.shortages - old(m.shortages))
  {
    hide KeepsPrivate, Inv, Nonempty, Attached;
    KeepsSelf(m.View());
    if space !in live || !UserPage(pg) || 0x1000 <= offset {
      return Refused;
    }
    var ok := m.UserWrite(space, pg, offset, value);
    return if ok then Done else Refused;
  }

  method StepMapRegion(m: MemoryMapper, live: set<Frame>, space: Frame, start: nat, pages: nat, perms: UserPerms)
    returns (out: Outcome)
    requires m.Valid() && Roots(m, live)
    modifies m
    ensures m.Valid() && Roots(m, live) && m.holders == old(m.holders) && KeepsPrivate(old(m.View()), m.View())
    ensures Spaces(m.phys, m.level) ==
            if out.Done? then AfterMapRegion(old(Spaces(m.phys, m.level)), space, start, pages, perms)
            else old(Spaces(m.phys, m.level))
    ensures old(m.shortages) <= m.shortages
    ensures Answers(SpacePermitted(old(Spaces(m.phys, m.level)), MapRegion(space, start, pages, perms)),
            MapRegion(space, start, pages, perms), out, m.shortages - old(m.shortages))
  {
    hide KeepsPrivate, Inv, Nonempty, Attached, Restored, UserRangeOk, NoneMapped, Spaces, WithZeroPages, Granted;
    KeepsSelf(m.View());
    RangeBounded(start, pages);
    SpacesAreRoots(m, live);
    if space !in live || U64_END <= start || U64_END <= pages {
      return Refused;
    }
    ghost var s := m.View();
    RegionFree(s, space, start, pages);
    var r, _ := m.MapUserRegionInto(space, start, pages, perms);
    if r.Err? {
      RestoredViews(s, m.View());
      RootsSame(m, live);
      return Refused;
    }
    RootsSame(m, live);
    return Done;
  }

  lemma RangeBounded(start: nat, pages: nat)
    ensures UserRangeOk(start, pages) ==> start < U64_END && pages < U64_END
  {
  }

  /** Programs see the region as unmapped exactly when its leaves are unused. */
  lemma RegionFree(s: State, r: Frame, start: nat, pages: nat)
    requires IsRoot(s, r)
    ensures r in Spaces(s.phys, s.level)
    ensures UserRangeOk(start, pages) ==> (NoneMapped(Spaces(s.phys, s.level)[r], start, pages) <==>
            Vacant(s.phys, r, start, pages))
  {
    hide Inv;
    if UserRangeOk(start, pages) {
      forall k | 0 <= k < pages
        ensures PageOf(start, k) in SpaceOf(s.phys, r) <==> LeafOf(s.phys, r, PageOf(start, k)).Used?
      {
      }
    }
  }

  method StepUnmap(m: MemoryMapper, live: set<Frame>, space: Frame, pg: Page) returns (out: Outcome)
    requires m.Valid() && Roots(m, live)
    modifies m
    ensures m.Valid() && Roots(m, live) && m.holders == old(m.holders) && KeepsPrivate(old(m.View()), m.View())
    ensures Spaces(m.phys, m.level) ==
            if out.Done? then AfterUnmap(old(Spaces(m.phys, m.level)), space, pg) else old(Spaces(m.phys, m.level))
    ensures old(m.shortages) <= m.shortages
    ensures Answers(SpacePermitted(old(Spaces(m.phys, m.level)), Unmap(space, pg)), Unmap(space, pg), out,
            m.shortages - old(m.shortages))
  {
    hide KeepsPrivate, Inv, Nonempty, Attached, PageSet, Unmapped;
    KeepsSelf(m.View());
    if space !in live || !UserPage(pg) {
      return Refused;
    }
    ghost var s := m.View();
    SpacesAreRoots(m, live);
    var r := m.UnmapPageFrom(space, pg);
    if r.Err? {
      return Refused;
    }
    UnmapShown(s, m.View(), space, pg);
    RootsSame(m, live);
    return Done;
  }

  lemma UnmapShown(s: State, b: State, r: Frame, pg: Page)
    requires PageSet(s, b, r, pg, Unused) && IsRoot(s, r)
    ensures r in Spaces(s.phys, s.level)
    ensures Spaces(b.phys, b.level) == Spaces(s.phys, s.level)[r := WithPage(Spaces(s.phys, s.level)[r], pg, None)]
    ensures Spaces(b.phys, b.level).Keys == Spaces(s.phys, s.level).Keys
  {
    assert Spaces(s.phys, s.level)[r] == SpaceOf(s.phys, r);
  }

  method StepMove(m: MemoryMapper, live: set<Frame>, space: Frame, pg: Page, dst: Page) returns (out: Outcome)
    requires m.Valid() && Roots(m, live)
    modifies m
    ensures m.Valid() && Roots(m, live) && m.holders == old(m.holders) && KeepsPrivate(old(m.View()), m.View())
    ensures Spaces(m.phys, m.level) ==
            if out.Done? then AfterMove(old(Spaces(m.phys, m.level)), space, pg, dst) else old(Spaces(m.phys, m.level))
    ensures old(m.shortages) <= m.shortages
    ensures Answers(SpacePermitted(old(Spaces(m.phys, m.level)), Move(space, pg, dst)), Move(space, pg, dst), out,
            m.shortages - old(m.shortages))
  {
    hide KeepsPrivate, Inv, Nonempty, Attached, PageMoved, Restored, SameViews, SpaceOf, AfterMove, WithPage;
    KeepsSelf(m.View());
    SpacesAreRoots(m, live);
    if space !in live || !UserPage(pg) || !UserPage(dst) {
      return Refused;
    }
    ghost var s := m.View();
    LeafShown(s, space, pg);
    LeafShown(s, space, dst);
    var r := m.MoveUserPage(space, pg, dst);
    if r.Err? {
      SpacesRestored(s, m.View());
      RootsSame(m, live);
      return Refused;
    }
    if pg != dst && r.value {
      MoveShown(s, m.View(), space, pg, dst);
    } else {
      NoMove(Spaces(s.phys, s.level), space, pg, dst);
    }
    RootsSame(m, live);
    return Done;
  }

  lemma SpacesRestored(s: State, b: State)
    requires Inv(s) && Restored(s, b)
    ensures Spaces(b.phys, b.level) == Spaces(s.phys, s.level) && b.holders == s.holders
  {
    RestoredViews(s, b);
  }

  lemma NoMove(w: SpaceMap, r: Frame, pg: Page, dst: Page)
    requires r in w ==> pg == dst || pg !in w[r]
    ensures AfterMove(w, r, pg, dst) == w
  {
  }

  lemma MoveShown(s: State, b: State, r: Frame, pg: Page, dst: Page)
    requires Inv(s) && IsRoot(s, r) && UserPage(pg) && PageMoved(s, b, r, pg, dst)
    ensures r in Spaces(s.phys, s.level) && pg in Spaces(s.phys, s.level)[r]
    ensures var w := Spaces(s.phys, s.level);
            && (pg != dst ==> Spaces(b.phys, b.level) == AfterMove(w, r, pg, dst))
            && Spaces(b.phys, b.level).Keys == w.Keys
  {
    LeafShown(s, r, pg);
  }

  method StepDrop(m: MemoryMapper, live: set<Frame>, space: Frame) returns (out: Outcome, after: set<Frame>)
    requires m.Valid() && Roots(m, live)
    modifies m
    ensures m.Valid() && Roots(m, after) && m.holders == old(m.holders) && KeepsPrivate(old(m.View()), m.View())
    ensures Spaces(m.phys, m.level) ==
            if out.Done? then old(Spaces(m.phys, m.level)) - {space} else old(Spaces(m.phys, m.level))
    ensures old(m.shortages) <= m.shortages
    ensures Answers(SpacePermitted(old(Spaces(m.phys, m.level)), Drop(space)), Drop(space), out,
            m.shortages - old(m.shortages))
  {
    hide KeepsPrivate, Inv, Nonempty, Attached, Destroyed;
    KeepsSelf(m.View());
    if space !in live {
      return Refused, live;
    }
    SpacesAreRoots(m, live);
    ghost var _ := m.DestroyUserAddressSpace(space);
    RootsSame(m, live - {space});
    return Done, live - {space};
  }

  // ------------------------------------------------------------------ private frames

  ghost function HeldBytes(phys: Memory, mine: set<Frame>): map<Frame, seq<bv8>> {
    map f | f in mine :: Bytes(phys, f)
  }

  ghost function WorldOf(s: State, mine: set<Frame>): World {
    World(Spaces(s.phys, s.level), HeldBytes(s.phys, mine))
  }

  /** What is held outside the tables: the kernel's own references, and one for each page-in. */
  ghost function WithMine(base: map<Frame, nat>, mine: set<Frame>): map<Frame, nat> {
    map f | f in base :: base[f] + One(f in mine)
  }

  ghost predicate IsMine(s: State, base: map<Frame, nat>, f: Frame) {
    Private(s, f) && f in base && base[f] == 0 && IsPageData(s.phys[f])
  }

  ghost predicate Owns(s: State, base: map<Frame, nat>, mine: set<Frame>) {
    s.holders == WithMine(base, mine) && forall f | f in mine :: IsMine(s, base, f)
  }

  lemma OwnsKept(s: State, b: State, base: map<Frame, nat>, mine: set<Frame>)
    requires Owns(s, base, mine) && b.holders == s.holders && KeepsPrivate(s, b)
    ensures Owns(b, base, mine) && HeldBytes(b.phys, mine) == HeldBytes(s.phys, mine)
  {
    forall f | f in mine
      ensures IsMine(b, base, f) && Bytes(b.phys, f) == Bytes(s.phys, f)
    {
      assert IsMine(s, base, f) && KeptPrivate(s, b, f);
    }
  }

  /** One frame less: mapped or given back. */
  lemma OwnsLess(s: State, b: State, base: map<Frame, nat>, mine: set<Frame>, f: Frame)
    requires Owns(s, base, mine) && f in mine && b.holders == Minus(s.holders, f) && KeepsOthers(s, b, f)
    ensures Owns(b, base, mine - {f}) && HeldBytes(b.phys, mine - {f}) == HeldBytes(s.phys, mine) - {f}
  {
    assert IsMine(s, base, f);
    forall g | g in mine - {f}
      ensures IsMine(b, base, g) && Bytes(b.phys, g) == Bytes(s.phys, g)
    {
      assert IsMine(s, base, g) && KeptPrivate(s, b, g);
    }
    assert b.holders == WithMine(base, mine - {f});
  }

  lemma OwnsMore(s: State, base: map<Frame, nat>, mine: set<Frame>, f: Frame, bytes: seq<bv8>)
    requires Inv(s) && Owns(s, base, mine) && f in s.refs && Count(s, f) == 0 && |bytes| == 0x1000
    ensures f !in mine && Owns(Staged(s, f, bytes), base, mine + {f})
    ensures HeldBytes(Staged(s, f, bytes).phys, mine + {f}) == HeldBytes(s.phys, mine)[f := bytes]
  {
    var b := Staged(s, f, bytes);
    assert AccountedAt(s, f);
    hide Inv, WithMine;
    MoreHeld(s.holders, base, mine, f);
    forall g | g in mine
      ensures IsMine(b, base, g) && Bytes(b.phys, g) == Bytes(s.phys, g)
    {
      assert IsMine(s, base, g);
    }
  }

  lemma MoreHeld(holders: map<Frame, nat>, base: map<Frame, nat>, mine: set<Frame>, f: Frame)
    requires holders == WithMine(base, mine) && f in holders && holders[f] == 0
    ensures f in base && base[f] == 0 && f !in mine && holders[f := 1] == WithMine(base, mine + {f})
  {
  }

  lemma OwnsFilled(s: State, base: map<Frame, nat>, mine: set<Frame>, f: Frame, bytes: seq<bv8>)
    requires Inv(s) && Nonempty(s, {}) && Attached(s, {}) && Owns(s, base, mine) && f in mine && |bytes| == 0x1000
    ensures var b := s.(phys := s.phys[f := Data(bytes)]);
            && Inv(b) && Nonempty(b, {}) && Attached(b, {}) && SameViews(s, b) && Owns(b, base, mine)
            && HeldBytes(b.phys, mine) == HeldBytes(s.phys, mine)[f := bytes]
  {
    var b := s.(phys := s.phys[f := Data(bytes)]);
    assert IsMine(s, base, f) && AccountedAt(s, f);
    FillStep(s, f, bytes);
    forall g | g in mine
      ensures IsMine(b, base, g) && Bytes(b.phys, g) == if g == f then bytes else Bytes(s.phys, g)
    {
      assert IsMine(s, base, g);
    }
  }

  method StepHold(m: MemoryMapper, live: set<Frame>, mine: set<Frame>, ghost base: map<Frame, nat>)
    returns (out: Outcome, after: set<Frame>)
    requires m.Valid() && Roots(m, live) && Owns(m.View(), base, mine)
    modifies m
    ensures m.Valid() && Roots(m, live) && Owns(m.View(), base, after) && old(m.shortages) <= m.shortages
    ensures WorldOf(m.View(), after) == EagerStep(old(WorldOf(m.View(), mine)), Hold, out)
    ensures Answers(true, Hold, out, m.shortages - old(m.shortages)) && (out.Got? ==> out.got !in mine)
  {
    hide Inv, Nonempty, Attached, Owns;
    ghost var s := m.View();
    var f := m.AllocatePrivateZeroedFrame();
    if f.None? {
      return Refused, mine;
    }
    OwnsMore(s, base, mine, f.value, ZeroPage());
    return Got(f.value), mine + {f.value};
  }

  method StepFill(m: MemoryMapper, live: set<Frame>, mine: set<Frame>, ghost base: map<Frame, nat>, f: Frame,
      offset: nat, value: bv8)
    returns (out: Outcome)
    requires m.Valid() && Roots(m, live) && Owns(m.View(), base, mine)
    modifies m
    ensures m.Valid() && Roots(m, live) && Owns(m.View(), base, mine) && m.shortages == old(m.shortages)
    ensures WorldOf(m.View(), mine) == EagerStep(old(WorldOf(m.View(), mine)), Fill(f, offset, value), out)
    ensures Answers(old(Permitted(WorldOf(m.View(), mine), Fill(f, offset, value))), Fill(f, offset, value), out, 0)
  {
    if f !in mine || 0x1000 <= offset {
      return Refused;
    }
    ghost var s := m.View();
    assert IsMine(s, base, f);
    OwnsFilled(s, base, mine, f, Bytes(s.phys, f)[offset := value]);
    m.StoreData(f, offset, value);
    return Done;
  }

  method StepInstall(m: MemoryMapper, live: set<Frame>, mine: set<Frame>, ghost base: map<Frame, nat>, op: Op)
    returns (out: Outcome, after: set<Frame>)
    requires m.Valid() && Roots(m, live) && Owns(m.View(), base, mine) && op.Install?
    modifies m
    ensures m.Valid() && Roots(m, live) && Owns(m.View(), base, after) && old(m.shortages) <= m.shortages
    ensures WorldOf(m.View(), after) == EagerStep(old(WorldOf(m.View(), mine)), op, out)
    ensures Answers(old(Permitted(WorldOf(m.View(), mine), op)), op, out, m.shortages - old(m.shortages))
  {
    hide KeepsPrivate, KeepsOthers, Inv, Nonempty, Attached, Owns, Restored, PageSet, SameViews, LeafOk, WithPage,
         Spaces;
    var space, pg, f := op.space, op.page, op.frame;
    SpacesAreRoots(m, live);
    ghost var s := m.View();
    if space !in live || f !in mine || !UserPage(pg) {
      return Refused, mine;
    }
    InstallReady(s, base, mine, f, op.perms.LeafFlags());
    LeafShown(s, space, pg);
    var r := m.MapPrivateFrameInto(space, pg, f, op.perms.LeafFlags());
    if r.Err? {
      InstallUndone(s, m.View(), base, mine);
      RootsSame(m, live);
      return Refused, mine;
    }
    OwnsLess(s, m.View(), base, mine, f);
    InstallShown(s, m.View(), space, pg, Used(f, op.perms.LeafFlags()));
    RootsSame(m, live);
    return Done, mine - {f};
  }

  lemma InstallReady(s: State, base: map<Frame, nat>, mine: set<Frame>, f: Frame, flags: Flags)
    requires Inv(s) && Owns(s, base, mine) && f in mine && PageTables.LeafFlags(flags)
    ensures 0 < Held(s, f) && LeafOk(s.phys, s.level, s.refs, Used(f, flags))
  {
    assert IsMine(s, base, f) && AccountedAt(s, f);
  }

  lemma InstallUndone(s: State, b: State, base: map<Frame, nat>, mine: set<Frame>)
    requires Inv(s) && Restored(s, b) && Owns(s, base, mine)
    ensures Owns(b, base, mine) && HeldBytes(b.phys, mine) == HeldBytes(s.phys, mine)
    ensures Spaces(b.phys, b.level) == Spaces(s.phys, s.level)
  {
    hide Inv, Owns, KeepsPrivate;
    RestoredViews(s, b);
    RestoredKeeps(s, b);
    OwnsKept(s, b, base, mine);
  }

  lemma InstallShown(s: State, b: State, r: Frame, pg: Page, e: Entry)
    requires PageSet(s, b, r, pg, e) && IsRoot(s, r) && e.Used?
            && Bytes(b.phys, e.frame) == Bytes(s.phys, e.frame) && !e.flags.cow
    ensures r in Spaces(s.phys, s.level)
    ensures Spaces(b.phys, b.level) ==
            Spaces(s.phys, s.level)[r := WithPage(Spaces(s.phys, s.level)[r], pg, Some(PageView(s.phys, e)))]
    ensures Spaces(b.phys, b.level).Keys == Spaces(s.phys, s.level).Keys
  {
    assert Spaces(s.phys, s.level)[r] == SpaceOf(s.phys, r);
  }

  method StepDiscard(m: MemoryMapper, live: set<Frame>, mine: set<Frame>, ghost base: map<Frame, nat>, f: Frame)
    returns (out: Outcome, after: set<Frame>)
    requires m.Valid() && Roots(m, live) && Owns(m.View(), base, mine)
    modifies m
    ensures m.Valid() && Roots(m, live) && Owns(m.View(), base, after) && m.shortages == old(m.shortages)
    ensures WorldOf(m.View(), after) == EagerStep(old(WorldOf(m.View(), mine)), Discard(f), out)
    ensures Answers(old(Permitted(WorldOf(m.View(), mine), Discard(f))), Discard(f), out, 0)
  {
    hide Inv, Nonempty, Attached, Spaces;
    if f !in mine {
      return Refused, mine;
    }
    ghost var s := m.View();
    assert IsMine(s, base, f);
    m.ReleasePrivateFrame(f);
    OwnsLess(s, m.View(), base, mine, f);
    return Done, mine - {f};
  }
}
