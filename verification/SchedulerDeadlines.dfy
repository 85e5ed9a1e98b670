/**
 Dispatch ceilings over whole runs: while an entity waits its ceiling is the
 earliest one promised to it, and the miss counter counts the late dispatches.
 */
module SchedulerDeadlines {
  import opened Base
  import opened SchedulerSpec
  import opened SchedulerSafety
  import opened SchedulerRuns
  import opened SchedulerWaiting

  function Ceiling(s: Sched, id: EntityId): Option<nat> {
    if id in s.entities then s.entities[id].mustRunBy else None
  }

  /** The earlier of two ceilings, either of which may be missing. */
  function Earlier(a: Option<nat>, b: Option<nat>): Option<nat> {
    if a.None? then b else if b.None? then a else Some(Min(a.value, b.value))
  }

  /** Whether a wake reaches the thread's entity. */
  predicate WakeReaches(s: Sched, pid: nat) {
    pid in s.processes && s.processes[pid].state == ProcessBlocked
  }

  /** The ceiling that a step promises to an entity. */
  function Promise(s: Sched, st: Step, id: EntityId): Option<nat> {
    match st
    case MakeReady(x, Some(ticks), now) => if x == id then Some(SaturatingAdd(now, ticks)) else None
    case Wake(pid, Some(ticks), now) =>
      if id == KernelThread(pid) && WakeReaches(s, pid) then Some(SaturatingAdd(now, ticks)) else None
    case _ => None
  }

  function EarliestPromise(s: Sched, steps: seq<Step>, id: EntityId): Option<nat>
    requires EnabledRun(s, steps)
    decreases |steps|
  {
    if steps == [] then None
    else Earlier(Promise(s, steps[0], id), EarliestPromise(Apply(s, steps[0]), steps[1..], id))
  }

  // ----------------------------------------------------------------- one transition

  ghost predicate Kept(s: Sched, t: Sched, id: EntityId) {
    Ceiling(t, id) == Ceiling(s, id)
  }

  lemma ScheduledKeeps(s: Sched, cpu: nat, now: nat, id: EntityId)
    requires NoDuplicates(s.queue) && cpu < |s.current| && id in Scheduled(s, cpu, now).queue
    ensures Kept(s, Scheduled(s, cpu, now), id)
  {
    var k := PickIndex(s, now, cpu);
    if k.Some? {
      TakenIsGone(s.queue, k.value, id);
    }
  }

  lemma DisplacedKeeps(s: Sched, x: EntityId, cpu: nat, id: EntityId)
    requires cpu < |s.current| && id != x
    ensures var d := Displaced(s, x, cpu); d.queue == s.queue && |d.current| == |s.current| && Kept(s, d, id)
  {
  }

  lemma PreemptedKeeps(s: Sched, x: EntityId, cpu: nat, now: nat, id: EntityId)
    requires NoDuplicates(s.queue) && cpu < |s.current| && id in Preempted(s, x, cpu, now).queue && id != x
    ensures Kept(s, Preempted(s, x, cpu, now), id)
  {
    hide Displaced, Scheduled, PickIndex;
    var d := Displaced(s, x, cpu);
    DisplacedKeeps(s, x, cpu, id);
    if PickIndex(d, now, cpu).Some? {
      ScheduledKeeps(d, cpu, now, id);
    }
  }

  lemma PoppedKeeps(s: Sched, cpu: nat, id: EntityId)
    requires NoDuplicates(s.queue) && cpu < |s.current| && id in UserPopped(s, cpu).queue
    ensures Kept(s, UserPopped(s, cpu), id)
  {
    var k := FirstUser(s, cpu, 0);
    if k.Some? {
      TakenIsGone(s.queue, k.value, id);
    }
  }

  lemma ReadyTightens(s: Sched, x: EntityId, contract: Option<nat>, now: nat, id: EntityId)
    requires id in s.entities && s.entities[id].state == Ready
    ensures Ceiling(MadeReady(s, x, contract, now), id) ==
            if x == id && contract.Some? then Earlier(Ceiling(s, id), Some(SaturatingAdd(now, contract.value)))
            else Ceiling(s, id)
  {
  }

  lemma WokenTightens(s: Sched, pid: nat, contract: Option<nat>, now: nat, id: EntityId)
    requires id in s.entities && s.entities[id].state == Ready
    ensures Ceiling(Woken(s, pid, contract, now), id) ==
            if KernelThread(pid) == id && WakeReaches(s, pid) && contract.Some?
            then Earlier(Ceiling(s, id), Some(SaturatingAdd(now, contract.value))) else Ceiling(s, id)
  {
    hide MadeReady;
    ReadyTightens(WithProcess(s, KernelThread(pid), ProcessReady, None), KernelThread(pid), contract, now, id);
  }

  lemma SpawnedKeeps(s: Sched, pid: nat, now: nat, id: EntityId)
    requires id in s.entities && id != KernelThread(pid)
    ensures Kept(s, Spawned(s, pid, now), id)
  {
  }

  lemma NamedKeeps(s: Sched, x: EntityId, cpu: nat, id: EntityId)
    requires cpu < |s.current| && NoDuplicates(s.queue)
    ensures Kept(s, Published(s, x), id) && Kept(s, Saving(s, x), id) && (x != id ==> Kept(s, Yielded(s, cpu, x), id))
    ensures id in BlockedEntity(s, x).queue ==> Kept(s, BlockedEntity(s, x), id)
    ensures id in Unregistered(s, x).queue ==> Kept(s, Unregistered(s, x), id)
    ensures id in ForcedRunning(s, cpu, x).queue ==> Kept(s, ForcedRunning(s, cpu, x), id)
  {
    RemovedMembers(s.queue, x, id);
  }

  lemma CurrentKeeps(s: Sched, cpu: nat, reason: BlockReason, id: EntityId)
    requires cpu < |s.current| && s.current[cpu] != Some(id)
    ensures Kept(s, CurrentBlocked(s, cpu, reason), id) && Kept(s, CurrentTerminated(s, cpu), id)
    ensures Kept(s, CurrentYielded(s, cpu), id)
  {
  }

  lemma PidKeeps(s: Sched, pid: nat, cpu: nat, id: EntityId)
    requires cpu < |s.current| && NoDuplicates(s.queue) && id in s.entities
    ensures Kept(s, UserCleared(s, cpu, pid), id) && Kept(s, UserRegistered(s, pid), id)
    ensures id in Terminated(s, pid).queue ==> Kept(s, Terminated(s, pid), id)
  {
    var x := KernelThread(pid);
    RemovedMembers(s.queue, x, id);
    RemovedTwice(s.queue, x);
  }

  lemma BoundKeeps(s: Sched, x: EntityId, affinity: Option<nat>, id: EntityId)
    ensures Kept(s, Bound(s, x, affinity), id)
  {
  }

  lemma QueuedIsReady(s: Sched, id: EntityId)
    requires SchedInv(s) && id in s.queue
    ensures id in s.entities && s.entities[id].state == Ready && !IsCurrent(s, id) && NoDuplicates(s.queue)
  {
    assert EntityOk(s, id);
  }

  predicate PicksNext(st: Step) {
    st.Schedule? || st.Preempt? || st.PopUser? || st.BlockCurrent? || st.TerminateCurrent? || st.YieldCurrent?
        || st.BeginSave?
  }

  lemma PickStepKeeps(s: Sched, st: Step, id: EntityId)
    requires SchedInv(s) && Enabled(s, st) && id in s.queue && id in Apply(s, st).queue && PicksNext(st)
    ensures Kept(s, Apply(s, st), id)
  {
    hide SchedInv, Scheduled, Preempted, UserPopped, CurrentBlocked, CurrentTerminated, CurrentYielded, Saving, Kept,
         NoDuplicates;
    QueuedIsReady(s, id);
    match st
    case Schedule(cpu, now) => ScheduledKeeps(s, cpu, now, id);
    case Preempt(cpu, now) => PreemptedKeeps(s, s.current[cpu].value, cpu, now, id);
    case PopUser(cpu) => PoppedKeeps(s, cpu, id);
    case BlockCurrent(cpu, reason) => CurrentKeeps(s, cpu, reason, id);
    case TerminateCurrent(cpu) => CurrentKeeps(s, cpu, WaitingForEvent, id);
    case YieldCurrent(cpu) => CurrentKeeps(s, cpu, WaitingForEvent, id);
    case BeginSave(cpu) => NamedKeeps(s, s.current[cpu].value, cpu, id);
  }

  lemma NamedStepKeeps(s: Sched, st: Step, id: EntityId)
    requires SchedInv(s) && Enabled(s, st) && id in s.queue && id in Apply(s, st).queue && !(st.Yield? && st.id == id)
    requires !PicksNext(st) && !st.MakeReady? && !st.Wake? && !st.WakeIo?
    ensures Kept(s, Apply(s, st), id)
  {
    hide SchedInv, ForcedRunning, Terminated, Spawned, Published, Yielded, BlockedEntity, Unregistered, UserCleared,
         UserRegistered, Bound, Kept, NoDuplicates;
    QueuedIsReady(s, id);
    match st
    case SetRunning(cpu, x) => NamedKeeps(s, x, cpu, id);
    case Terminate(pid) => PidKeeps(s, pid, 0, id);
    case RegisterUser(pid) => PidKeeps(s, pid, 0, id);
    case ClearUser(cpu, pid) => PidKeeps(s, pid, cpu, id);
    case Block(x) => NamedKeeps(s, x, 0, id);
    case Unregister(x) => NamedKeeps(s, x, 0, id);
    case Publish(x) => NamedKeeps(s, x, 0, id);
    case Yield(cpu, x) => NamedKeeps(s, x, cpu, id);
    case Spawn(pid, now) => SpawnedKeeps(s, pid, now, id);
    case SetAffinity(x, affinity) => BoundKeeps(s, x, affinity, id);
  }

  /** One step of a run in which the entity keeps waiting. */
  lemma CeilingStep(s: Sched, st: Step, id: EntityId)
    requires SchedInv(s) && Enabled(s, st) && id in s.queue && id in Apply(s, st).queue && !(st.Yield? && st.id == id)
    ensures Ceiling(Apply(s, st), id) == Earlier(Ceiling(s, id), Promise(s, st, id))
  {
    hide SchedInv, Enabled, Ceiling, Apply;
    if st.MakeReady? || st.Wake? || st.WakeIo? {
      WakeStepTightens(s, st, id);
    } else if PicksNext(st) {
      PickStepKeeps(s, st, id);
    } else {
      NamedStepKeeps(s, st, id);
    }
  }

  lemma WakeStepTightens(s: Sched, st: Step, id: EntityId)
    requires SchedInv(s) && Enabled(s, st) && id in s.queue && (st.MakeReady? || st.Wake? || st.WakeIo?)
    ensures Ceiling(Apply(s, st), id) == Earlier(Ceiling(s, id), Promise(s, st, id))
  {
    hide SchedInv, Enabled, MadeReady, Woken, Ceiling;
    QueuedIsReady(s, id);
    match st
    case MakeReady(x, contract, now) => ReadyTightens(s, x, contract, now, id);
    case Wake(pid, contract, now) => WokenTightens(s, pid, contract, now, id);
    case WakeIo(pid, token, now) => WokenTightens(s, pid, None, now, id);
  }

  /** While an entity waits and is not yielded again, its ceiling is the earliest of all it was promised. */
  lemma {:induction false} EarliestPromiseHolds(s: Sched, steps: seq<Step>, id: EntityId)
    requires SchedInv(s) && EnabledRun(s, steps) && StillWaiting(s, steps, id)
    requires forall k | 0 <= k < |steps| :: !(steps[k].Yield? && steps[k].id == id)
    ensures Ceiling(Run(s, steps), id) == Earlier(Ceiling(s, id), EarliestPromise(s, steps, id))
    decreases |steps|
  {
    hide SchedInv, Enabled, Apply, Promise;
    if steps != [] {
      var t := Apply(s, steps[0]);
      StepInv(s, steps[0]);
      CeilingStep(s, steps[0], id);
      EarliestPromiseHolds(t, steps[1..], id);
    }
  }

  /** Yielding an entity that is already queued drops its ceiling and keeps its place. */
  lemma YieldForgets(s: Sched, cpu: nat, id: EntityId)
    requires SchedInv(s) && Enabled(s, Yield(cpu, id)) && id in s.queue
    ensures var t := Apply(s, Yield(cpu, id)); Ceiling(t, id) == None && t.queue == s.queue
  {
    QueuedIsReady(s, id);
  }

  // ------------------------------------------------------------------------- misses

  /** A step that hands a CPU an entity whose ceiling has passed. */
  predicate LateDispatch(s: Sched, st: Step)
    requires Enabled(s, st)
  {
    && (st.Schedule? || st.Preempt?)
    && st.cpu < |Apply(s, st).current|
    && var x := Apply(s, st).current[st.cpu];
       x.Some? && x != s.current[st.cpu] && Ceiling(s, x.value).Some? && Ceiling(s, x.value).value < st.now
  }

  function LateDispatches(s: Sched, steps: seq<Step>): nat
    requires EnabledRun(s, steps)
    decreases |steps|
  {
    if steps == [] then 0 else One(LateDispatch(s, steps[0])) + LateDispatches(Apply(s, steps[0]), steps[1..])
  }

  lemma ScheduledMisses(s: Sched, cpu: nat, now: nat)
    requires cpu < |s.current| && s.current[cpu].None?
    ensures var t := Scheduled(s, cpu, now);
            && |t.current| == |s.current|
            && var x := t.current[cpu];
               t.misses == if x.Some? && Ceiling(s, x.value).Some? && Ceiling(s, x.value).value < now
                           then SaturatingAdd(s.misses, 1) else s.misses
  {
  }

  lemma PreemptedMisses(s: Sched, x: EntityId, cpu: nat, now: nat)
    requires SchedInv(s) && cpu < |s.current| && s.current[cpu] == Some(x) && s.misses < U64_END
    ensures LateDispatch(s, Preempt(cpu, now)) ==> Preempted(s, x, cpu, now).misses == SaturatingAdd(s.misses, 1)
    ensures !LateDispatch(s, Preempt(cpu, now)) ==> Preempted(s, x, cpu, now).misses == s.misses
  {
    hide SchedInv;
    var d := Displaced(s, x, cpu);
    assert d.queue == s.queue && d.misses == s.misses && d.current == s.current[cpu := None];
    if PickIndex(d, now, cpu).Some? {
      var y := s.queue[PickIndex(d, now, cpu).value];
      QueuedIsReady(s, y);
      IsCurrentAt(s, cpu);
      assert y != x && Ceiling(d, y) == Ceiling(s, y);
      ScheduledMisses(d, cpu, now);
    }
  }

  lemma QuietMisses(s: Sched, st: Step)
    requires Enabled(s, st) && !st.Schedule? && !st.Preempt?
    ensures Apply(s, st).misses == s.misses
  {
  }

  lemma MissStep(s: Sched, st: Step)
    requires SchedInv(s) && Enabled(s, st) && s.misses < U64_END
    ensures Apply(s, st).misses == if LateDispatch(s, st) then SaturatingAdd(s.misses, 1) else s.misses
  {
    hide Scheduled, Preempted;
    match st
    case Schedule(cpu, now) => ScheduledMisses(s, cpu, now);
    case Preempt(cpu, now) => PreemptedMisses(s, s.current[cpu].value, cpu, now);
    case _ => QuietMisses(s, st);
  }

  /** The counter holds the number of late dispatches of the run, up to its limit. */
  lemma {:induction false} MissesCounted(s: Sched, steps: seq<Step>)
    requires SchedInv(s) && EnabledRun(s, steps) && s.misses < U64_END
    ensures Run(s, steps).misses == SaturatingAdd(s.misses, LateDispatches(s, steps))
    decreases |steps|
  {
    hide SchedInv, Enabled, Apply, LateDispatch;
    if steps != [] {
      StepInv(s, steps[0]);
      MissStep(s, steps[0]);
      MissesCounted(Apply(s, steps[0]), steps[1..]);
    }
  }
}
