/**
 Context saves over whole runs. Whether a save is still owed is told from the
 steps of the run alone, without the flag the scheduler keeps; the flag is shown to
 agree with it, and no CPU to be handed an entity that owes a save, except by
 `SetRunning`, which looks at neither.
 */
module SchedulerContexts {
  import opened Base
  import opened SchedulerSpec
  import opened SchedulerSafety
  import opened SchedulerRuns

  /** The save of a context has begun and not ended, so far as the flag says. */
  predicate Owed(s: Sched, id: EntityId) {
    id in s.entities && !s.entities[id].published
  }

  /** The same after one more step, from what the step does. A yield counts as the end of a save, like a publication. */
  predicate OwedNext(s: Sched, st: Step, id: EntityId, owed: bool)
    requires Enabled(s, st)
  {
    match st
    case BeginSave(cpu) => owed || s.current[cpu] == Some(id)
    case YieldCurrent(cpu) => owed || (s.current[cpu] == Some(id) && id.KernelThread?)
    case BlockCurrent(cpu, _) => owed || (s.current[cpu] == Some(id) && id.KernelThread?)
    case Preempt(cpu, _) => if s.current[cpu] == Some(id) then !IsCurrent(Apply(s, st), id) else owed
    case Publish(x) => owed && x != id
    case Yield(_, x) => owed && x != id
    case Unregister(x) => owed && x != id
    case Terminate(pid) => owed && (KernelThread(pid) != id || IsCurrent(s, id))
    case TerminateCurrent(cpu) => owed && s.current[cpu] != Some(id)
    case _ => owed
  }

  predicate OwedAfter(s: Sched, steps: seq<Step>, id: EntityId, owed: bool)
    requires EnabledRun(s, steps)
    decreases |steps|
  {
    if steps == [] then owed else OwedAfter(Apply(s, steps[0]), steps[1..], id, OwedNext(s, steps[0], id, owed))
  }

  // ----------------------------------------------------------------- one transition

  ghost predicate SameFlag(s: Sched, t: Sched, id: EntityId) {
    Owed(t, id) == Owed(s, id)
  }

  lemma PickedFlag(s: Sched, cpu: nat, now: nat, id: EntityId)
    requires cpu < |s.current|
    ensures SameFlag(s, Scheduled(s, cpu, now), id) && SameFlag(s, UserPopped(s, cpu), id)
  {
  }

  lemma PreemptedFlag(s: Sched, x: EntityId, cpu: nat, now: nat, id: EntityId)
    requires SchedInv(s) && cpu < |s.current| && s.current[cpu] == Some(x)
    ensures var t := Preempted(s, x, cpu, now);
            Owed(t, id) == if x == id then !IsCurrent(t, id) else Owed(s, id)
  {
    hide Scheduled, Displaced;
    var d := Displaced(s, x, cpu);
    DisplacedFlag(s, x, cpu, id);
    PreemptedInv(s, x, cpu, now);
    if PickIndex(d, now, cpu).Some? {
      PickedFlag(d, cpu, now, id);
      DisplacedStaysOff(s, x, cpu, now);
    } else {
      IsCurrentAt(Preempted(s, x, cpu, now), cpu);
    }
  }

  lemma DisplacedFlag(s: Sched, x: EntityId, cpu: nat, id: EntityId)
    requires SchedInv(s) && cpu < |s.current| && s.current[cpu] == Some(x)
    ensures var d := Displaced(s, x, cpu);
            x in d.entities && |d.current| == |s.current| && Owed(d, id) == (x == id || Owed(s, id))
  {
    IsCurrentAt(s, cpu);
    assert EntityOk(s, x);
  }

  /** The displaced entity is not queued, so another one is picked. */
  lemma DisplacedStaysOff(s: Sched, x: EntityId, cpu: nat, now: nat)
    requires SchedInv(s) && cpu < |s.current| && s.current[cpu] == Some(x)
    requires PickIndex(Displaced(s, x, cpu), now, cpu).Some?
    ensures !IsCurrent(Scheduled(Displaced(s, x, cpu), cpu, now), x)
  {
    var d := Displaced(s, x, cpu);
    DisplacedInv(s, x, cpu);
    DisplacedFlag(s, x, cpu, x);
    assert EntityOk(d, x);
    var y := d.queue[PickIndex(d, now, cpu).value];
    assert EntityOk(d, y);
    SetCurrent(d.current, cpu, y, x);
  }

  lemma ReadyFlag(s: Sched, x: EntityId, contract: Option<nat>, now: nat, id: EntityId)
    ensures SameFlag(s, MadeReady(s, x, contract, now), id)
  {
  }

  lemma WokenFlag(s: Sched, pid: nat, contract: Option<nat>, now: nat, id: EntityId)
    ensures SameFlag(s, Woken(s, pid, contract, now), id)
  {
    ReadyFlag(WithProcess(s, KernelThread(pid), ProcessReady, None), KernelThread(pid), contract, now, id);
  }

  lemma SpawnedFlag(s: Sched, pid: nat, now: nat, id: EntityId)
    requires KernelThread(pid) !in s.entities
    ensures SameFlag(s, Spawned(s, pid, now), id)
  {
  }

  lemma NamedFlag(s: Sched, x: EntityId, cpu: nat, id: EntityId)
    requires cpu < |s.current|
    ensures SameFlag(s, BlockedEntity(s, x), id) && SameFlag(s, ForcedRunning(s, cpu, x), id)
    ensures x in s.entities ==> Owed(Saving(s, x), id) == (Owed(s, id) || x == id)
  {
  }

  lemma EndsFlag(s: Sched, x: EntityId, cpu: nat, id: EntityId)
    requires cpu < |s.current|
    ensures Owed(Published(s, x), id) == (Owed(s, id) && x != id)
    ensures Owed(Unregistered(s, x), id) == (Owed(s, id) && x != id)
    ensures Owed(Yielded(s, cpu, x), id) == (Owed(s, id) && x != id)
  {
  }

  lemma BlockedFlag(s: Sched, cpu: nat, reason: BlockReason, id: EntityId)
    requires cpu < |s.current| && (s.current[cpu].Some? ==> s.current[cpu].value in s.entities)
    ensures Owed(CurrentBlocked(s, cpu, reason), id) ==
            (Owed(s, id) || (s.current[cpu] == Some(id) && id.KernelThread?))
  {
  }

  lemma YieldedFlag(s: Sched, cpu: nat, id: EntityId)
    requires cpu < |s.current| && (s.current[cpu].Some? ==> s.current[cpu].value in s.entities)
    ensures Owed(CurrentYielded(s, cpu), id) == (Owed(s, id) || (s.current[cpu] == Some(id) && id.KernelThread?))
  {
  }

  lemma EndedFlag(s: Sched, cpu: nat, pid: nat, id: EntityId)
    requires SchedInv(s) && cpu < |s.current|
    ensures s.current[cpu].Some? && s.current[cpu].value.KernelThread? ==>
              Owed(CurrentTerminated(s, cpu), id) == (Owed(s, id) && s.current[cpu] != Some(id))
    ensures Owed(Terminated(s, pid), id) == (Owed(s, id) && (KernelThread(pid) != id || IsCurrent(s, id)))
  {
    assert ProcessOk(s, pid);
  }

  lemma QuietFlag(s: Sched, st: Step, id: EntityId)
    requires Enabled(s, st) && (st.RegisterUser? || st.ClearUser? || st.SetAffinity?)
    ensures SameFlag(s, Apply(s, st), id)
  {
  }

  lemma CurrentIsKnown(s: Sched, cpu: nat)
    requires SchedInv(s) && cpu < |s.current|
    ensures s.current[cpu].Some? ==> s.current[cpu].value in s.entities
  {
    if s.current[cpu].Some? {
      IsCurrentAt(s, cpu);
      assert EntityOk(s, s.current[cpu].value);
    }
  }

  lemma FlagStep(s: Sched, st: Step, id: EntityId)
    requires SchedInv(s) && Enabled(s, st)
    ensures Owed(Apply(s, st), id) == OwedNext(s, st, id, Owed(s, id))
  {
    hide SchedInv, Scheduled, Preempted, UserPopped, CurrentBlocked, Saving, CurrentYielded, CurrentTerminated,
         UserCleared, ForcedRunning, MadeReady, BlockedEntity, Published, Yielded, Unregistered, Spawned, Woken,
         Terminated, UserRegistered, Bound, Owed, IsCurrent;
    match st
    case Schedule(cpu, now) => PickedFlag(s, cpu, now, id);
    case PopUser(cpu) => PickedFlag(s, cpu, 0, id);
    case Preempt(cpu, now) => PreemptedFlag(s, s.current[cpu].value, cpu, now, id);
    case MakeReady(x, contract, now) => ReadyFlag(s, x, contract, now, id);
    case Wake(pid, contract, now) => WokenFlag(s, pid, contract, now, id);
    case WakeIo(pid, token, now) => WokenFlag(s, pid, None, now, id);
    case Spawn(pid, now) => SpawnedFlag(s, pid, now, id);
    case BlockCurrent(cpu, reason) =>
      CurrentIsKnown(s, cpu);
      BlockedFlag(s, cpu, reason, id);
    case YieldCurrent(cpu) =>
      CurrentIsKnown(s, cpu);
      YieldedFlag(s, cpu, id);
    case TerminateCurrent(cpu) => EndedFlag(s, cpu, 0, id);
    case Terminate(pid) => EndedFlag(s, 0, pid, id);
    case BeginSave(cpu) =>
      CurrentIsKnown(s, cpu);
      NamedFlag(s, s.current[cpu].value, cpu, id);
    case Block(x) => NamedFlag(s, x, 0, id);
    case Publish(x) => EndsFlag(s, x, 0, id);
    case Yield(cpu, x) => EndsFlag(s, x, cpu, id);
    case Unregister(x) => EndsFlag(s, x, 0, id);
    case SetRunning(cpu, x) => NamedFlag(s, x, cpu, id);
    case _ => QuietFlag(s, st, id);
  }

  // ------------------------------------------------------------------------- history

  /** The scheduler's flag says exactly what the run so far says. */
  lemma {:induction false} FlagIsHistory(s: Sched, steps: seq<Step>, id: EntityId)
    requires SchedInv(s) && EnabledRun(s, steps)
    ensures Owed(Run(s, steps), id) == OwedAfter(s, steps, id, Owed(s, id))
    decreases |steps|
  {
    hide SchedInv, Enabled, Apply, Owed, OwedNext;
    if steps != [] {
      FlagStep(s, steps[0], id);
      StepInv(s, steps[0]);
      FlagIsHistory(Apply(s, steps[0]), steps[1..], id);
    }
  }

  /** A step that gives a CPU an entity which it did not have. */
  predicate HandsOver(s: Sched, st: Step, c: nat, id: EntityId)
    requires Enabled(s, st) && c < MAX_CPUS
  {
    c < |Apply(s, st).current| && Apply(s, st).current[c] == Some(id) && s.current[c] != Some(id)
  }

  /**
   After any run from the start, the context handed to a CPU is one whose save the
   run has begun and not ended if and only if the step is a `SetRunning` of an
   entity that is registered and not published.
   */
  lemma UnsavedOnlyIfForced(idle: nat, steps: seq<Step>, st: Step, c: nat, id: EntityId)
    requires EnabledRun(Initial(idle), steps) && Enabled(Run(Initial(idle), steps), st) && c < MAX_CPUS
    requires HandsOver(Run(Initial(idle), steps), st, c, id)
    ensures var s := Run(Initial(idle), steps);
            OwedAfter(Initial(idle), steps, id, false) <==>
            st == SetRunning(c, id) && id in s.entities && !s.entities[id].published
  {
    hide SchedInv, Apply, EnabledRun, OwedAfter;
    var s := Run(Initial(idle), steps);
    InitialInv(idle);
    RunInv(Initial(idle), steps);
    assert !Owed(Initial(idle), id);
    FlagIsHistory(Initial(idle), steps, id);
    DispatchIsSaved(s, st, c);
  }

  /** Steps after which an entity that owes a save may run: it is saved, forced, or no longer there. */
  predicate SetsFree(st: Step, id: EntityId) {
    match st
    case Publish(x) => x == id
    case Yield(_, x) => x == id
    case SetRunning(_, x) => x == id
    case Unregister(x) => x == id
    case Terminate(pid) => id == KernelThread(pid)
    case _ => false
  }

  lemma OffStep(s: Sched, st: Step, id: EntityId)
    requires SchedInv(s) && Enabled(s, st) && Owed(s, id) && !IsCurrent(s, id) && !SetsFree(st, id)
    ensures Owed(Apply(s, st), id) && !IsCurrent(Apply(s, st), id)
  {
    hide SchedInv, Apply;
    FlagStep(s, st, id);
    StepInv(s, st);
    CpuCount(Apply(s, st));
    forall c | 0 <= c < MAX_CPUS
      ensures Apply(s, st).current[c] != Some(id)
    {
      DispatchIsSaved(s, st, c);
    }
  }

  lemma CpuCount(s: Sched)
    requires SchedInv(s)
    ensures |s.current| == MAX_CPUS
  {
  }

  lemma {:induction false} OffUntilSaved(s: Sched, steps: seq<Step>, id: EntityId)
    requires SchedInv(s) && EnabledRun(s, steps) && Owed(s, id) && !IsCurrent(s, id)
    requires forall k | 0 <= k < |steps| :: !SetsFree(steps[k], id)
    ensures NeverDispatched(s, steps, id)
    decreases |steps|
  {
    hide SchedInv, Enabled, Apply, Owed, SetsFree;
    if steps != [] {
      OffStep(s, steps[0], id);
      StepInv(s, steps[0]);
      OffUntilSaved(Apply(s, steps[0]), steps[1..], id);
    }
  }

  /** A step that takes an entity off its CPU with its context still to be saved. */
  predicate LeavesUnsaved(s: Sched, st: Step, id: EntityId)
    requires Enabled(s, st)
  {
    && IsCurrent(s, id) && !IsCurrent(Apply(s, st), id)
    && (st.Preempt? || st.YieldCurrent? || st.BlockCurrent? || (Owed(s, id) && !SetsFree(st, id)
            && !st.TerminateCurrent?))
  }

  lemma LeavesOwed(s: Sched, st: Step, id: EntityId)
    requires SchedInv(s) && Enabled(s, st) && LeavesUnsaved(s, st, id)
    ensures Owed(Apply(s, st), id)
  {
    FlagStep(s, st, id);
    if st.Preempt? || st.YieldCurrent? || st.BlockCurrent? {
      OffHere(s, st, id);
    }
  }

  lemma OffHere(s: Sched, st: Step, id: EntityId)
    requires SchedInv(s) && Enabled(s, st) && IsCurrent(s, id) && !IsCurrent(Apply(s, st), id)
    requires st.Preempt? || st.YieldCurrent? || st.BlockCurrent?
    ensures s.current[st.cpu] == Some(id) && (st.Preempt? || id.KernelThread?)
  {
    StepInv(s, st);
    forall c | 0 <= c < MAX_CPUS && c != st.cpu
      ensures Apply(s, st).current[c] == s.current[c]
    {
      ElsewhereKept(s, st, c);
    }
    var c :| 0 <= c < |s.current| && s.current[c] == Some(id);
    assert c == st.cpu;
  }

  /** These steps only change what their own CPU has. */
  lemma ElsewhereKept(s: Sched, st: Step, c: nat)
    requires SchedInv(s) && Enabled(s, st) && (st.Preempt? || st.YieldCurrent? || st.BlockCurrent?)
    requires c < MAX_CPUS && c != st.cpu
    ensures |Apply(s, st).current| == MAX_CPUS && Apply(s, st).current[c] == s.current[c]
  {
    hide Preempted, CurrentYielded, CurrentBlocked;
    match st
    case Preempt(cpu, now) => PreemptedElsewhere(s, s.current[cpu].value, cpu, now, c);
    case YieldCurrent(cpu) => YieldedElsewhere(s, cpu, c);
    case BlockCurrent(cpu, reason) => BlockedElsewhere(s, cpu, reason, c);
  }

  lemma PreemptedElsewhere(s: Sched, x: EntityId, cpu: nat, now: nat, c: nat)
    requires cpu < |s.current| && c < |s.current| && c != cpu
    ensures |Preempted(s, x, cpu, now).current| == |s.current| && Preempted(s, x, cpu, now).current[c] == s.current[c]
  {
  }

  lemma YieldedElsewhere(s: Sched, cpu: nat, c: nat)
    requires cpu < |s.current| && c < |s.current| && c != cpu
    ensures |CurrentYielded(s, cpu).current| == |s.current| && CurrentYielded(s, cpu).current[c] == s.current[c]
  {
  }

  lemma BlockedElsewhere(s: Sched, cpu: nat, reason: BlockReason, c: nat)
    requires OneCpuEach(s.current) && cpu < |s.current| && c < |s.current| && c != cpu
    ensures |CurrentBlocked(s, cpu, reason).current| == |s.current|
            && CurrentBlocked(s, cpu, reason).current[c] == s.current[c]
  {
  }

  /**
   From the moment an entity leaves its CPU with its context unsaved, no CPU has
   it again until the save is published, unless it is yielded or forced onto a
   CPU by name, or unregistered.
   */
  lemma NotBeforeSaved(s: Sched, st: Step, steps: seq<Step>, id: EntityId)
    requires SchedInv(s) && Enabled(s, st) && LeavesUnsaved(s, st, id) && EnabledRun(Apply(s, st), steps)
    requires forall k | 0 <= k < |steps| :: !SetsFree(steps[k], id)
    ensures NeverDispatched(Apply(s, st), steps, id)
  {
    StepInv(s, st);
    LeavesOwed(s, st, id);
    OffUntilSaved(Apply(s, st), steps, id);
  }

  // ----------------------------------------------------------------------- witnesses

  /** A user process preempted on CPU 0, its context not yet published. */
  const PREEMPTED: seq<Step> :=
    [RegisterUser(1), MakeReady(UserProcess(1), None, 0), Schedule(0, 0), Spawn(2, 0), Preempt(0, 0)]

  /** The only entry of a queue, bound to no CPU, is the one picked. */
  lemma PickedAlone(s: Sched, cpu: nat, now: nat, x: EntityId)
    requires cpu < |s.current| && s.queue == [x] && x in s.entities && s.entities[x].affinity.None?
    ensures PickIndex(s, now, cpu) == Some(0)
    ensures Scheduled(s, cpu, now) == Dispatched(s, 0, cpu, now) && Scheduled(s, cpu, now).queue == []
    ensures Scheduled(s, cpu, now).current == s.current[cpu := Some(x)]
  {
    assert Eligible(s, 0, cpu);
    PickIs(s, now, cpu);
  }

  /** Two entities, bound to no CPU, the user process in a given state and queue. */
  ghost predicate Setting(s: Sched, current: Option<EntityId>, queue: seq<EntityId>, state: RunState) {
    && s.current == seq(MAX_CPUS, _ => None)[0 := current] && s.queue == queue && s.idle == Some(0)
    && s.processes.Keys == {0} && s.entities.Keys == {KernelThread(0), UserProcess(1)}
    && s.entities[UserProcess(1)].state == state && s.entities[UserProcess(1)].affinity.None?
    && s.entities[UserProcess(1)].published
  }

  lemma UserKnown()
    ensures Enabled(Initial(0), RegisterUser(1)) && Setting(Apply(Initial(0), RegisterUser(1)), None, [], Blocked)
  {
  }

  lemma UserReady(s: Sched)
    requires Setting(s, None, [], Blocked)
    ensures Enabled(s, MakeReady(UserProcess(1), None, 0))
    ensures Setting(Apply(s, MakeReady(UserProcess(1), None, 0)), None, [UserProcess(1)], Ready)
  {
  }

  lemma UserRuns(s: Sched)
    requires Setting(s, None, [UserProcess(1)], Ready)
    ensures Enabled(s, Schedule(0, 0)) && Setting(Apply(s, Schedule(0, 0)), Some(UserProcess(1)), [], Running)
  {
    PickedAlone(s, 0, 0, UserProcess(1));
  }

  /** The second thread has taken CPU 0, the user process is ready with its save owed. */
  ghost predicate Unsaved(s: Sched) {
    && s.current == seq(MAX_CPUS, _ => None)[0 := Some(KernelThread(2))] && s.queue == [] && s.idle == Some(0)
    && s.entities.Keys == {KernelThread(0), UserProcess(1), KernelThread(2)}
    && s.entities[UserProcess(1)].state == Ready && s.entities[UserProcess(1)].affinity.None?
    && !s.entities[UserProcess(1)].published
  }

  lemma ThreadQueued(s: Sched)
    requires Setting(s, Some(UserProcess(1)), [], Running)
    ensures Enabled(s, Spawn(2, 0))
    ensures var t := Apply(s, Spawn(2, 0));
            && t.current == s.current && t.queue == [KernelThread(2)] && t.idle == Some(0)
            && t.entities == s.entities[KernelThread(2) := NEW_ENTITY.(state := Ready)]
  {
  }

  lemma ThreadPreempts(s: Sched)
    requires s.current == seq(MAX_CPUS, _ => None)[0 := Some(UserProcess(1))] && s.queue == [KernelThread(2)]
            && s.idle == Some(0)
    requires s.entities.Keys == {KernelThread(0), UserProcess(1), KernelThread(2)}
    requires s.entities[KernelThread(2)].affinity.None? && s.entities[UserProcess(1)].affinity.None?
    ensures Enabled(s, Preempt(0, 0)) && Unsaved(Apply(s, Preempt(0, 0)))
  {
    var d := Displaced(s, UserProcess(1), 0);
    assert d.entities.Keys == s.entities.Keys;
    PickedAlone(d, 0, 0, KernelThread(2));
    assert Apply(s, Preempt(0, 0)).entities.Keys == s.entities.Keys;
  }

  lemma {:induction false} OneMore(s: Sched, steps: seq<Step>, st: Step)
    requires EnabledRun(s, steps) && Enabled(Run(s, steps), st)
    ensures EnabledRun(s, steps + [st]) && Run(s, steps + [st]) == Apply(Run(s, steps), st)
    decreases |steps|
  {
    hide Enabled, Apply;
    if steps != [] {
      assert (steps + [st])[1..] == steps[1..] + [st];
      OneMore(Apply(s, steps[0]), steps[1..], st);
    }
  }

  lemma PreemptedUnsaved()
    ensures EnabledRun(Initial(0), PREEMPTED) && Unsaved(Run(Initial(0), PREEMPTED))
  {
    var s := Initial(0);
    assert EnabledRun(s, []) && Run(s, []) == s;
    hide Run, EnabledRun, Enabled, Apply, Setting, Unsaved;
    UserKnown();
    OneMore(s, [], RegisterUser(1));
    assert [] + [RegisterUser(1)] == PREEMPTED[..1];
    UserReady(Run(s, PREEMPTED[..1]));
    OneMore(s, PREEMPTED[..1], MakeReady(UserProcess(1), None, 0));
    assert PREEMPTED[..1] + [MakeReady(UserProcess(1), None, 0)] == PREEMPTED[..2];
    UserRuns(Run(s, PREEMPTED[..2]));
    OneMore(s, PREEMPTED[..2], Schedule(0, 0));
    assert PREEMPTED[..2] + [Schedule(0, 0)] == PREEMPTED[..3];
    PreemptedLast(s);
  }

  lemma PreemptedLast(s: Sched)
    requires EnabledRun(s, PREEMPTED[..3]) && Setting(Run(s, PREEMPTED[..3]), Some(UserProcess(1)), [], Running)
    ensures EnabledRun(s, PREEMPTED) && Unsaved(Run(s, PREEMPTED))
  {
    hide Run, EnabledRun, Enabled, Apply, Unsaved;
    var a := PREEMPTED[..3];
    ThreadQueued(Run(s, a));
    OneMore(s, a, Spawn(2, 0));
    assert a + [Spawn(2, 0)] == PREEMPTED[..4];
    ThreadPreempts(Run(s, PREEMPTED[..4]));
    OneMore(s, PREEMPTED[..4], Preempt(0, 0));
    assert PREEMPTED[..4] + [Preempt(0, 0)] == PREEMPTED;
  }

  /** There, `SetRunning` hands CPU 1 a context that is still being saved. */
  lemma ForcedUnsaved()
    ensures EnabledRun(Initial(0), PREEMPTED)
    ensures var s, st := Run(Initial(0), PREEMPTED), SetRunning(1, UserProcess(1));
            Enabled(s, st) && HandsOver(s, st, 1, UserProcess(1)) && Owed(Apply(s, st), UserProcess(1))
  {
    hide Run, EnabledRun;
    PreemptedUnsaved();
    var s := Run(Initial(0), PREEMPTED);
    assert |s.entities.Keys| == 3;
  }

  /** There, a yield stands in for the publication, and the next pick takes the entity. */
  lemma YieldedUnsaved()
    ensures EnabledRun(Initial(0), PREEMPTED)
    ensures var s, st := Run(Initial(0), PREEMPTED), Yield(1, UserProcess(1));
            Enabled(s, st) && Enabled(Apply(s, st), Schedule(1, 0))
                && HandsOver(Apply(s, st), Schedule(1, 0), 1, UserProcess(1))
  {
    hide Run, EnabledRun;
    PreemptedUnsaved();
    var t := Apply(Run(Initial(0), PREEMPTED), Yield(1, UserProcess(1)));
    PickedAlone(t, 1, 0, UserProcess(1));
  }
}
