/**
 Reference-counted pointers. Each atomic access of clone, downgrade, upgrade and
 the multi-step drops is one step; the steps of all threads interleave in any
 order, under sequential consistency.
 */
module ArcWeak {
  import opened Base

  /** Largest count a clone accepts (the signed maximum of a 64-bit word). */
  const COUNT_LIMIT: nat := 0x7FFF_FFFF_FFFF_FFFF

  datatype Kind = Strong | Weak

  /** How far the end of the value has come, and which handle is carrying it out. */
  datatype Stage = Owned | Last(dropper: nat) | ValueDropped(dropper: nat) | ImplicitReleased

  datatype Upgrade = Upgrade(handle: nat, seen: nat)

  datatype Cell = Cell(
    strong: nat,
    weak: nat,
    handles: map<nat, Kind>,
    upgrades: map<nat, Upgrade>,
    stage: Stage,
    freer: Option<nat>,
    drops: nat,
    frees: nat)

  datatype ArcStep =
    | CloneStrong(handle: nat, created: nat)
    | Downgrade(handle: nat, created: nat)
    | CloneWeak(handle: nat, created: nat)
    | UpgradeLoad(call: nat, handle: nat)
    | UpgradeCas(call: nat, created: nat, spurious: bool)
    | DropStrong(handle: nat)
    | DropValue
    | ReleaseImplicit
    | DropWeak(handle: nat)
    | Free

  predicate Has(c: Cell, h: nat, kind: Kind) {
    h in c.handles && c.handles[h] == kind
  }

  predicate Borrowed(c: Cell, h: nat) {
    exists u :: u in c.upgrades && c.upgrades[u].handle == h
  }

  /** A step needs the handle it works on; counts below the limit; names not in use. */
  ghost predicate Enabled(c: Cell, st: ArcStep) {
    match st
    case CloneStrong(h, n) => Has(c, h, Strong) && n !in c.handles && c.strong < COUNT_LIMIT
    case Downgrade(h, n) => Has(c, h, Strong) && n !in c.handles && c.weak < COUNT_LIMIT
    case CloneWeak(h, n) => Has(c, h, Weak) && n !in c.handles && c.weak < COUNT_LIMIT
    case UpgradeLoad(u, h) => Has(c, h, Weak) && u !in c.upgrades
    case UpgradeCas(u, n, _) => u in c.upgrades && n !in c.handles && c.strong < COUNT_LIMIT
    case DropStrong(h) => Has(c, h, Strong)
    case DropValue => c.stage.Last?
    case ReleaseImplicit => c.stage.ValueDropped?
    case DropWeak(h) => Has(c, h, Weak) && !Borrowed(c, h)
    case Free => c.freer.Some?
  }

  /** Giving up one count of the allocation; the last one must free it. */
  function WeakDecrement(c: Cell, last: nat): Cell {
    c.(weak := if 0 < c.weak then c.weak - 1 else 0, freer := if c.weak == 1 then Some(last) else c.freer)
  }

  ghost function Apply(c: Cell, st: ArcStep): Cell
    requires Enabled(c, st)
  {
    match st
    case CloneStrong(h, n) => c.(strong := c.strong + 1, handles := c.handles[n := Strong])
    case Downgrade(h, n) => c.(weak := c.weak + 1, handles := c.handles[n := Weak])
    case CloneWeak(h, n) => c.(weak := c.weak + 1, handles := c.handles[n := Weak])
    case UpgradeLoad(u, h) => if c.strong == 0 then c else c.(upgrades := c.upgrades[u := Upgrade(h, c.strong)])
    case UpgradeCas(u, n, spurious) =>
      if c.strong == c.upgrades[u].seen && !spurious
      then c.(strong := c.strong + 1, handles := c.handles[n := Strong], upgrades := c.upgrades - {u})
      else if c.strong == 0 then c.(upgrades := c.upgrades - {u})
      else c.(upgrades := c.upgrades[u := c.upgrades[u].(seen := c.strong)])
    case DropStrong(h) =>
      c.(strong := if 0 < c.strong then c.strong - 1 else 0, handles := c.handles - {h},
         stage := if c.strong == 1 then Last(h) else c.stage)
    case DropValue => c.(stage := ValueDropped(c.stage.dropper), drops := c.drops + 1)
    case ReleaseImplicit => WeakDecrement(c, c.stage.dropper).(stage := ImplicitReleased)
    case DropWeak(h) => WeakDecrement(c, h).(handles := c.handles - {h})
    case Free => c.(freer := None, frees := c.frees + 1)
  }

  // ------------------------------------------------------------------ invariant

  function Holders(c: Cell, kind: Kind): set<nat> {
    set h | h in c.handles && c.handles[h] == kind
  }

  ghost predicate UpgradeOk(c: Cell, u: nat) {
    u in c.upgrades ==> Has(c, c.upgrades[u].handle, Weak) && 0 < c.upgrades[u].seen
  }

  ghost predicate ArcInv(c: Cell) {
    && c.strong == |Holders(c, Strong)|
    && c.weak == |Holders(c, Weak)| + One(!c.stage.ImplicitReleased?)
    && (c.stage.Owned? <==> 0 < c.strong)
    && c.drops == One(c.stage.ValueDropped? || c.stage.ImplicitReleased?)
    && c.frees == One(c.weak == 0 && c.freer.None?)
    && (c.freer.Some? ==> c.weak == 0)
    && forall u :: UpgradeOk(c, u)
  }

  /** One handle and its value, nothing else. */
  function NewArc(h: nat): Cell {
    Cell(1, 1, map[h := Strong], map[], Owned, None, 0, 0)
  }

  lemma NewArcInv(h: nat)
    ensures ArcInv(NewArc(h))
  {
    assert Holders(NewArc(h), Strong) == {h};
    assert Holders(NewArc(h), Weak) == {};
  }

  lemma Added(c: Cell, d: Cell, n: nat, kind: Kind)
    requires n !in c.handles && d.handles == c.handles[n := kind]
    ensures |Holders(d, kind)| == |Holders(c, kind)| + 1
    ensures forall k | k != kind :: Holders(d, k) == Holders(c, k)
  {
    assert Holders(d, kind) == Holders(c, kind) + {n};
    forall k | k != kind
      ensures Holders(d, k) == Holders(c, k)
    {
      assert forall h :: h in Holders(d, k) <==> h in Holders(c, k);
    }
  }

  lemma Lost(c: Cell, d: Cell, h: nat, kind: Kind)
    requires Has(c, h, kind) && d.handles == c.handles - {h}
    ensures |Holders(d, kind)| == |Holders(c, kind)| - 1
    ensures forall k | k != kind :: Holders(d, k) == Holders(c, k)
  {
    assert Holders(d, kind) == Holders(c, kind) - {h};
    forall k | k != kind
      ensures Holders(d, k) == Holders(c, k)
    {
      assert forall g :: g in Holders(d, k) <==> g in Holders(c, k);
    }
  }

  /** A handle counts. */
  lemma Counted(c: Cell, h: nat, kind: Kind)
    requires Has(c, h, kind)
    ensures 0 < |Holders(c, kind)|
  {
    assert h in Holders(c, kind);
  }

  lemma CreateInv(c: Cell, st: ArcStep)
    requires ArcInv(c) && Enabled(c, st) && (st.CloneStrong? || st.Downgrade? || st.CloneWeak?)
    ensures ArcInv(Apply(c, st))
  {
    var d := Apply(c, st);
    Counted(c, st.handle, c.handles[st.handle]);
    Added(c, d, st.created, if st.CloneStrong? then Strong else Weak);
    forall u
      ensures UpgradeOk(d, u)
    {
      assert UpgradeOk(c, u);
    }
  }

  lemma UpgradeInv(c: Cell, st: ArcStep)
    requires ArcInv(c) && Enabled(c, st) && (st.UpgradeLoad? || st.UpgradeCas?)
    ensures ArcInv(Apply(c, st))
  {
    var d := Apply(c, st);
    forall u
      ensures UpgradeOk(d, u)
    {
      assert UpgradeOk(c, u);
    }
    if st.UpgradeCas? {
      assert UpgradeOk(c, st.call);
      if c.strong == c.upgrades[st.call].seen && !st.spurious {
        Added(c, d, st.created, Strong);
      }
    }
  }

  lemma DropInv(c: Cell, st: ArcStep)
    requires ArcInv(c) && Enabled(c, st) && (st.DropStrong? || st.DropWeak?)
    ensures ArcInv(Apply(c, st))
  {
    var d := Apply(c, st);
    var kind := c.handles[st.handle];
    Counted(c, st.handle, kind);
    Lost(c, d, st.handle, kind);
    forall u
      ensures UpgradeOk(d, u)
    {
      assert UpgradeOk(c, u);
    }
  }

  lemma EndInv(c: Cell, st: ArcStep)
    requires ArcInv(c) && Enabled(c, st) && (st.DropValue? || st.ReleaseImplicit? || st.Free?)
    ensures ArcInv(Apply(c, st))
  {
    var d := Apply(c, st);
    assert Holders(d, Strong) == Holders(c, Strong) && Holders(d, Weak) == Holders(c, Weak);
    forall u
      ensures UpgradeOk(d, u)
    {
      assert UpgradeOk(c, u);
    }
  }

  lemma StepInv(c: Cell, st: ArcStep)
    requires ArcInv(c) && Enabled(c, st)
    ensures ArcInv(Apply(c, st))
  {
    hide ArcInv, Apply, Enabled;
    match st
    case CloneStrong(_, _) => CreateInv(c, st);
    case Downgrade(_, _) => CreateInv(c, st);
    case CloneWeak(_, _) => CreateInv(c, st);
    case UpgradeLoad(_, _) => UpgradeInv(c, st);
    case UpgradeCas(_, _, _) => UpgradeInv(c, st);
    case DropStrong(_) => DropInv(c, st);
    case DropWeak(_) => DropInv(c, st);
    case _ => EndInv(c, st);
  }

  // ----------------------------------------------------------------------- runs

  ghost predicate IsRun(c: Cell, steps: seq<ArcStep>)
    decreases |steps|
  {
    steps == [] || (Enabled(c, steps[0]) && IsRun(Apply(c, steps[0]), steps[1..]))
  }

  ghost function After(c: Cell, steps: seq<ArcStep>): Cell
    requires IsRun(c, steps)
    decreases |steps|
  {
    if steps == [] then c else After(Apply(c, steps[0]), steps[1..])
  }

  lemma {:induction false} RunInv(c: Cell, steps: seq<ArcStep>)
    requires ArcInv(c) && IsRun(c, steps)
    ensures ArcInv(After(c, steps))
    decreases |steps|
  {
    if steps != [] {
      StepInv(c, steps[0]);
      RunInv(Apply(c, steps[0]), steps[1..]);
    }
  }

  /**
   In every state of every run the value has been dropped at most once, never
   while a strong handle is left, and the memory has been freed at most once,
   only after that and with no handle of either kind left to name it.
   */
  lemma LifeCycle(h: nat, steps: seq<ArcStep>)
    requires IsRun(NewArc(h), steps)
    ensures var c := After(NewArc(h), steps);
            && c.drops <= 1 && c.frees <= 1
            && (0 < c.drops ==> forall g :: !Has(c, g, Strong))
            && (0 < c.frees || c.freer.Some? ==> c.drops == 1 && c.handles == map[] && c.upgrades == map[])
            && (c.freer.Some? ==> c.frees == 0)
  {
    NewArcInv(h);
    RunInv(NewArc(h), steps);
    var c := After(NewArc(h), steps);
    forall g, kind: Kind
      ensures Has(c, g, kind) ==> 0 < |Holders(c, kind)|
    {
      if Has(c, g, kind) {
        Counted(c, g, kind);
      }
    }
    if c.weak == 0 {
      forall g
        ensures g !in c.handles
      {
        if g in c.handles {
          assert Has(c, g, c.handles[g]);
        }
      }
      forall u
        ensures u !in c.upgrades
      {
        assert UpgradeOk(c, u);
      }
    }
  }

  /** Every atomic access, drop or release is made while the memory is still there. */
  lemma NoUseAfterFree(c: Cell, st: ArcStep)
    requires ArcInv(c) && Enabled(c, st)
    ensures c.frees == 0
  {
    match st
    case UpgradeCas(u, _, _) =>
      assert UpgradeOk(c, u);
      Counted(c, c.upgrades[u].handle, Weak);
    case CloneStrong(h, _) => Counted(c, h, Strong);
    case Downgrade(h, _) => Counted(c, h, Strong);
    case DropStrong(h) => Counted(c, h, Strong);
    case CloneWeak(h, _) => Counted(c, h, Weak);
    case UpgradeLoad(_, h) => Counted(c, h, Weak);
    case DropWeak(h) => Counted(c, h, Weak);
    case _ =>
  }

  /** Once the strong count has reached zero it stays there: no step makes a strong handle again. */
  lemma ZeroIsFinal(c: Cell, st: ArcStep)
    requires ArcInv(c) && Enabled(c, st) && c.strong == 0
    ensures Apply(c, st).strong == 0 && forall g :: Has(Apply(c, st), g, Strong) ==> Has(c, g, Strong)
  {
    if st.UpgradeCas? {
      assert UpgradeOk(c, st.call);
    }
    if st.CloneStrong? || st.DropStrong? || st.Downgrade? {
      Counted(c, st.handle, Strong);
    }
  }

  /** So along any run no upgrade succeeds after the last strong handle began to drop. */
  lemma {:induction false} NoLateUpgrade(c: Cell, steps: seq<ArcStep>, g: nat)
    requires ArcInv(c) && c.strong == 0 && IsRun(c, steps)
    ensures After(c, steps).strong == 0 && !Has(After(c, steps), g, Strong)
    decreases |steps|
  {
    if steps == [] {
      if Has(c, g, Strong) {
        Counted(c, g, Strong);
      }
    } else {
      ZeroIsFinal(c, steps[0]);
      StepInv(c, steps[0]);
      NoLateUpgrade(Apply(c, steps[0]), steps[1..], g);
    }
  }

  /** Nothing leaks: with every handle gone and every drop finished, value and memory are released. */
  lemma AllReleased(h: nat, steps: seq<ArcStep>)
    requires IsRun(NewArc(h), steps)
    requires var c := After(NewArc(h), steps);
             c.handles == map[] && !c.stage.Last? && !c.stage.ValueDropped? && c.freer.None?
    ensures var c := After(NewArc(h), steps); c.drops == 1 && c.frees == 1
  {
    NewArcInv(h);
    RunInv(NewArc(h), steps);
    var c := After(NewArc(h), steps);
    assert Holders(c, Strong) == {} && Holders(c, Weak) == {};
  }

  // -------------------------------------------------------------------- upgrades

  /** An upgrade that nobody interrupts gets a handle exactly if the value is still owned. */
  lemma UpgradeAlone(c: Cell, u: nat, h: nat, n: nat)
    requires ArcInv(c) && Has(c, h, Weak) && u !in c.upgrades && n !in c.handles && c.strong < COUNT_LIMIT
    ensures Enabled(c, UpgradeLoad(u, h))
    ensures var loaded := Apply(c, UpgradeLoad(u, h));
            if c.stage.Owned?
            then
              && Enabled(loaded, UpgradeCas(u, n, false))
              && var done := Apply(loaded, UpgradeCas(u, n, false));
                 Has(done, n, Strong) && done.strong == c.strong + 1 && done.upgrades == c.upgrades
            else loaded == c
  {
  }

  /** An upgrade under way ends at a look of its own: with a handle if the value is owned then, else with none. */
  lemma {:induction false} UpgradeEnds(c: Cell, steps: seq<ArcStep>, u: nat) returns (k: nat)
    requires ArcInv(c) && IsRun(c, steps) && u in c.upgrades && u !in After(c, steps).upgrades
    ensures k < |steps| && IsRun(c, steps[..k]) && steps[k].UpgradeCas? && steps[k].call == u
    ensures var m := After(c, steps[..k]);
            && Enabled(m, steps[k]) && u in m.upgrades && u !in Apply(m, steps[k]).upgrades
            && var after := Apply(m, steps[k]);
               if m.stage.Owned? then Has(after, steps[k].created, Strong) && after.strong == m.strong + 1
               else after.handles == m.handles
    decreases |steps|
  {
    var st, d := steps[0], Apply(c, steps[0]);
    if u !in d.upgrades {
      assert UpgradeOk(c, u) && steps[..0] == [];
      return 0;
    }
    StepInv(c, st);
    k := UpgradeEnds(d, steps[1..], u);
    assert steps[..k + 1][1..] == steps[1..][..k];
    k := k + 1;
  }
}
