/** Runs of the scheduler: safety, and wake-ups across a context save. */
module SchedulerRuns {
  import opened Base
  import opened SchedulerSpec
  import opened SchedulerSafety

  datatype Step =
    | Spawn(pid: nat, now: nat)
    | RegisterUser(pid: nat)
    | MakeReady(id: EntityId, contract: Option<nat>, now: nat)
    | Block(id: EntityId)
    | BlockCurrent(cpu: nat, reason: BlockReason)
    | BeginSave(cpu: nat)
    | Publish(id: EntityId)
    | Schedule(cpu: nat, now: nat)
    | Preempt(cpu: nat, now: nat)
    | PopUser(cpu: nat)
    | ClearUser(cpu: nat, pid: nat)
    | SetRunning(cpu: nat, id: EntityId)
    | Yield(cpu: nat, id: EntityId)
    | YieldCurrent(cpu: nat)
    | Wake(pid: nat, contract: Option<nat>, now: nat)
    | WakeIo(pid: nat, token: nat, now: nat)
    | Terminate(pid: nat)
    | TerminateCurrent(cpu: nat)
    | Unregister(id: EntityId)
    | SetAffinity(id: EntityId, affinity: Option<nat>)

  predicate NotIdle(s: Sched, id: EntityId) {
    s.idle.Some? ==> id != KernelThread(s.idle.value)
  }

  predicate Room(s: Sched, id: EntityId) {
    id in s.entities || |s.entities| < MAX_ENTITIES
  }

  /** What callers guarantee before each step. */
  predicate Enabled(s: Sched, st: Step) {
    && |s.current| == MAX_CPUS
    && match st {
         case Spawn(pid, _) => pid !in s.processes && KernelThread(pid) !in s.entities
             && |s.entities| < MAX_ENTITIES && s.idle != Some(pid)
         case RegisterUser(pid) => Room(s, UserProcess(pid))
         case MakeReady(id, _, _) => NotIdle(s, id)
         case Block(_) => true
         case BlockCurrent(cpu, _) => cpu < MAX_CPUS
         case BeginSave(cpu) => cpu < MAX_CPUS && s.current[cpu].Some?
         case Publish(_) => true
         case Schedule(cpu, _) => cpu < MAX_CPUS && s.current[cpu].None?
         case Preempt(cpu, _) => cpu < MAX_CPUS && s.current[cpu].Some?
         case PopUser(cpu) => cpu < MAX_CPUS && s.current[cpu].None?
         case ClearUser(cpu, _) => cpu < MAX_CPUS
         case SetRunning(cpu, id) =>
           cpu < MAX_CPUS && id.UserProcess? && Room(s, id) && (IsCurrent(s, id) ==> s.current[cpu] == Some(id))
         case Yield(cpu, id) =>
           cpu < MAX_CPUS && id in s.entities && NotIdle(s, id) && (IsCurrent(s, id) ==> s.current[cpu] == Some(id))
         case YieldCurrent(cpu) => cpu < MAX_CPUS
         case Wake(_, _, _) => true
         case WakeIo(_, _, _) => true
         case Terminate(pid) => s.idle != Some(pid)
         case TerminateCurrent(cpu) => cpu < MAX_CPUS && s.current[cpu].Some? && s.current[cpu].value.KernelThread?
         case Unregister(id) => id.UserProcess?
         case SetAffinity(_, _) => true
       }
  }

  function Apply(s: Sched, st: Step): Sched
    requires Enabled(s, st)
  {
    match st
    case Spawn(pid, now) => Spawned(s, pid, now)
    case RegisterUser(pid) => UserRegistered(s, pid)
    case MakeReady(id, contract, now) => MadeReady(s, id, contract, now)
    case Block(id) => BlockedEntity(s, id)
    case BlockCurrent(cpu, reason) => CurrentBlocked(s, cpu, reason)
    case BeginSave(cpu) => Saving(s, s.current[cpu].value)
    case Publish(id) => Published(s, id)
    case Schedule(cpu, now) => Scheduled(s, cpu, now)
    case Preempt(cpu, now) => Preempted(s, s.current[cpu].value, cpu, now)
    case PopUser(cpu) => UserPopped(s, cpu)
    case ClearUser(cpu, pid) => UserCleared(s, cpu, pid)
    case SetRunning(cpu, id) => ForcedRunning(s, cpu, id)
    case Yield(cpu, id) => Yielded(s, cpu, id)
    case YieldCurrent(cpu) => CurrentYielded(s, cpu)
    case Wake(pid, contract, now) => Woken(s, pid, contract, now)
    case WakeIo(pid, token, now) => IoWoken(s, pid, token, now)
    case Terminate(pid) => Terminated(s, pid)
    case TerminateCurrent(cpu) => CurrentTerminated(s, cpu)
    case Unregister(id) => Unregistered(s, id)
    case SetAffinity(id, affinity) => Bound(s, id, affinity)
  }

  lemma StepInv(s: Sched, st: Step)
    requires SchedInv(s) && Enabled(s, st)
    ensures SchedInv(Apply(s, st))
  {
    hide SchedInv, Scheduled, Preempted, UserPopped, CurrentBlocked, Saving, CurrentYielded, UserCleared,
         ForcedRunning, MadeReady, BlockedEntity, Published, Yielded, Unregistered, Spawned, Woken, Terminated,
         UserRegistered, CurrentTerminated, Bound;
    match st
    case Spawn(pid, now) => SpawnedInv(s, pid, now);
    case RegisterUser(pid) => UserRegisteredInv(s, pid);
    case MakeReady(id, contract, now) => MadeReadyInv(s, id, contract, now);
    case Block(id) => BlockedInv(s, id);
    case BlockCurrent(cpu, reason) => CurrentBlockedInv(s, cpu, reason);
    case BeginSave(cpu) =>
      IsCurrentAt(s, cpu);
      CurrentNotQueued(s, s.current[cpu].value);
      SavingInv(s, s.current[cpu].value);
    case Publish(id) => PublishedInv(s, id);
    case Schedule(cpu, now) => ScheduledInv(s, cpu, now);
    case Preempt(cpu, now) => PreemptedInv(s, s.current[cpu].value, cpu, now);
    case PopUser(cpu) => UserPoppedInv(s, cpu);
    case ClearUser(cpu, pid) => UserClearedInv(s, cpu, pid);
    case SetRunning(cpu, id) => ForcedInv(s, cpu, id);
    case Yield(cpu, id) => YieldedInv(s, cpu, id);
    case YieldCurrent(cpu) => CurrentYieldedInv(s, cpu);
    case Wake(pid, contract, now) => WokenInv(s, pid, contract, now);
    case WakeIo(pid, token, now) => WokenInv(s, pid, None, now);
    case Terminate(pid) => TerminatedInv(s, pid);
    case TerminateCurrent(cpu) => CurrentTerminatedInv(s, cpu);
    case Unregister(id) => UserUnregisteredInv(s, id);
    case SetAffinity(id, affinity) => BoundInv(s, id, affinity);
  }

  // ----------------------------------------------------------------------- runs

  predicate EnabledRun(s: Sched, steps: seq<Step>)
    decreases |steps|
  {
    steps == [] || (Enabled(s, steps[0]) && EnabledRun(Apply(s, steps[0]), steps[1..]))
  }

  function Run(s: Sched, steps: seq<Step>): Sched
    requires EnabledRun(s, steps)
    decreases |steps|
  {
    if steps == [] then s else Run(Apply(s, steps[0]), steps[1..])
  }

  /** The state after `init`: only the idle process exists. */
  function Initial(idle: nat): Sched {
    Sched(map[idle := Process(ProcessReady, None, false)], map[KernelThread(idle) := NEW_ENTITY], [],
          seq(MAX_CPUS, _ => None), Some(idle), 0)
  }

  lemma InitialInv(idle: nat)
    ensures SchedInv(Initial(idle))
  {
  }

  lemma {:induction false} RunInv(s: Sched, steps: seq<Step>)
    requires SchedInv(s) && EnabledRun(s, steps)
    ensures SchedInv(Run(s, steps))
    decreases |steps|
  {
    if steps != [] {
      StepInv(s, steps[0]);
      RunInv(Apply(s, steps[0]), steps[1..]);
    }
  }

  /**
   In every state of every run: no entity is current on two CPUs, the current
   entities are the running ones, and the queue holds each ready entity whose
   context is saved exactly once and nothing else.
   */
  lemma Safety(idle: nat, steps: seq<Step>)
    requires EnabledRun(Initial(idle), steps)
    ensures var s := Run(Initial(idle), steps);
            && OneCpuEach(s.current) && NoDuplicates(s.queue) && |s.queue| <= MAX_ENTITIES
            && (forall id :: IsCurrent(s, id) <==> id in s.entities && s.entities[id].state == Running)
            && (forall id :: id in s.queue <==> Dispatchable(s, id))
  {
    InitialInv(idle);
    RunInv(Initial(idle), steps);
    var s := Run(Initial(idle), steps);
    forall id
      ensures IsCurrent(s, id) <==> id in s.entities && s.entities[id].state == Running
      ensures id in s.queue <==> Dispatchable(s, id)
    {
      assert EntityOk(s, id);
    }
    QueueCard(s.queue, s.entities.Keys);
  }

  lemma ScheduledSaved(s: Sched, cpu: nat, now: nat, c: nat)
    requires SchedInv(s) && cpu < |s.current| && c < |s.current|
    ensures var t := Scheduled(s, cpu, now);
            t.current[c].Some? && t.current[c] != s.current[c] ==> Dispatchable(s, t.current[c].value)
  {
    var k := PickIndex(s, now, cpu);
    if k.Some? {
      assert EntityOk(s, s.queue[k.value]);
    }
  }

  lemma PreemptedSaved(s: Sched, id: EntityId, cpu: nat, now: nat, c: nat)
    requires SchedInv(s) && cpu < |s.current| && c < |s.current| && s.current[cpu] == Some(id)
    ensures var t := Preempted(s, id, cpu, now);
            t.current[c].Some? && t.current[c] != s.current[c] ==> Dispatchable(s, t.current[c].value)
  {
    DisplacedInv(s, id, cpu);
    var d := Displaced(s, id, cpu);
    ScheduledSaved(d, cpu, now, c);
    var t := Preempted(s, id, cpu, now);
    if t.current[c].Some? && t.current[c] != s.current[c] {
      assert EntityOk(s, t.current[c].value) && EntityOk(d, t.current[c].value);
    }
  }

  lemma PoppedSaved(s: Sched, cpu: nat, c: nat)
    requires SchedInv(s) && cpu < |s.current| && c < |s.current|
    ensures var t := UserPopped(s, cpu);
            t.current[c].Some? && t.current[c] != s.current[c] ==> Dispatchable(s, t.current[c].value)
  {
    var k := FirstUser(s, cpu, 0);
    if k.Some? {
      assert EntityOk(s, s.queue[k.value]);
    }
  }

  lemma ForcedHands(s: Sched, cpu: nat, id: EntityId, c: nat)
    requires cpu < |s.current| && c < |s.current|
    ensures var t := ForcedRunning(s, cpu, id);
            |t.current| == |s.current| && (t.current[c] != s.current[c] ==> c == cpu && t.current[c] == Some(id))
  {
  }

  /** A CPU keeps what it has or loses it. */
  ghost predicate HandsNothing(s: Sched, t: Sched, c: nat) {
    c < |s.current| == |t.current| && (t.current[c] == s.current[c] || t.current[c].None?)
  }

  lemma ReadyHandsNothing(s: Sched, id: EntityId, contract: Option<nat>, now: nat, c: nat)
    requires c < |s.current|
    ensures HandsNothing(s, MadeReady(s, id, contract, now), c)
  {
  }

  lemma WokenHandsNothing(s: Sched, pid: nat, contract: Option<nat>, now: nat, c: nat)
    requires c < |s.current|
    ensures HandsNothing(s, Woken(s, pid, contract, now), c) && HandsNothing(s, Spawned(s, pid, now), c)
  {
    hide MadeReady;
    var id := KernelThread(pid);
    ReadyHandsNothing(WithProcess(s, id, ProcessReady, None), id, contract, now, c);
    var t := s.(processes := s.processes[pid := Process(ProcessReady, None, false)]);
    ReadyHandsNothing(WithEntity(t, id, NEW_ENTITY), id, None, now, c);
  }

  lemma NamedHandsNothing(s: Sched, id: EntityId, cpu: nat, c: nat)
    requires c < |s.current| && cpu < |s.current|
    ensures HandsNothing(s, BlockedEntity(s, id), c) && HandsNothing(s, Unregistered(s, id), c)
    ensures HandsNothing(s, Published(s, id), c) && HandsNothing(s, Saving(s, id), c)
            && HandsNothing(s, Yielded(s, cpu, id), c)
  {
  }

  lemma CurrentHandsNothing(s: Sched, cpu: nat, reason: BlockReason, c: nat)
    requires c < |s.current| && cpu < |s.current|
    ensures HandsNothing(s, CurrentBlocked(s, cpu, reason), c)
    ensures HandsNothing(s, CurrentYielded(s, cpu), c) && HandsNothing(s, CurrentTerminated(s, cpu), c)
  {
  }

  lemma PidHandsNothing(s: Sched, pid: nat, cpu: nat, c: nat)
    requires c < |s.current| && cpu < |s.current|
    ensures HandsNothing(s, Terminated(s, pid), c) && HandsNothing(s, UserCleared(s, cpu, pid), c)
    ensures HandsNothing(s, UserRegistered(s, pid), c)
  {
  }

  lemma OthersHandNothing(s: Sched, st: Step, c: nat)
    requires Enabled(s, st) && c < MAX_CPUS && !st.Schedule? && !st.Preempt? && !st.PopUser? && !st.SetRunning?
    ensures HandsNothing(s, Apply(s, st), c)
  {
    hide CurrentBlocked, Saving, CurrentYielded, CurrentTerminated, UserCleared, MadeReady, BlockedEntity, Published,
         Yielded, Unregistered, Spawned, Woken, Terminated, UserRegistered;
    match st
    case MakeReady(id, contract, now) => ReadyHandsNothing(s, id, contract, now, c);
    case Wake(pid, contract, now) => WokenHandsNothing(s, pid, contract, now, c);
    case WakeIo(pid, token, now) => WokenHandsNothing(s, pid, None, now, c);
    case Spawn(pid, now) => WokenHandsNothing(s, pid, None, now, c);
    case BlockCurrent(cpu, reason) => CurrentHandsNothing(s, cpu, reason, c);
    case YieldCurrent(cpu) => CurrentHandsNothing(s, cpu, WaitingForEvent, c);
    case TerminateCurrent(cpu) => CurrentHandsNothing(s, cpu, WaitingForEvent, c);
    case BeginSave(cpu) => NamedHandsNothing(s, s.current[cpu].value, cpu, c);
    case Block(id) => NamedHandsNothing(s, id, 0, c);
    case Publish(id) => NamedHandsNothing(s, id, 0, c);
    case Yield(cpu, id) => NamedHandsNothing(s, id, cpu, c);
    case Unregister(id) => NamedHandsNothing(s, id, 0, c);
    case Terminate(pid) => PidHandsNothing(s, pid, 0, c);
    case ClearUser(cpu, pid) => PidHandsNothing(s, pid, cpu, c);
    case RegisterUser(pid) => PidHandsNothing(s, pid, 0, c);
    case SetAffinity(_, _) =>
  }

  /**
   Whatever the step, a CPU is handed an entity that was ready with its context
   published, or the one that `SetRunning` names.
   */
  lemma DispatchIsSaved(s: Sched, st: Step, c: nat)
    requires SchedInv(s) && Enabled(s, st) && c < MAX_CPUS
    ensures |Apply(s, st).current| == MAX_CPUS
    ensures var t := Apply(s, st);
            t.current[c].Some? && t.current[c] != s.current[c] ==>
              Dispatchable(s, t.current[c].value) || st == SetRunning(c, t.current[c].value)
  {
    StepInv(s, st);
    hide Scheduled, Preempted, UserPopped, ForcedRunning;
    match st
    case Schedule(cpu, now) => ScheduledSaved(s, cpu, now, c);
    case Preempt(cpu, now) => PreemptedSaved(s, s.current[cpu].value, cpu, now, c);
    case PopUser(cpu) => PoppedSaved(s, cpu, c);
    case SetRunning(cpu, id) => ForcedHands(s, cpu, id, c);
    case _ => OthersHandNothing(s, st, c);
  }

  // ---------------------------------------------- wake-ups across a context save

  /** Steps on a parked thread: it is woken, its save completes, or neither. */
  predicate Wakes(st: Step, pid: nat, reason: BlockReason) {
    || (st.Wake? && st.pid == pid)
    || (st.MakeReady? && st.id == KernelThread(pid))
    || (st.WakeIo? && st.pid == pid && reason == WaitingForBlockIo(st.token))
  }

  predicate Saves(st: Step, pid: nat) {
    st.Publish? && st.id == KernelThread(pid)
  }

  /** Steps that do something else to the thread. */
  predicate Disturbs(st: Step, pid: nat) {
    || (st.Block? && st.id == KernelThread(pid))
    || (st.Yield? && st.id == KernelThread(pid))
    || (st.Terminate? && st.pid == pid)
  }

  /**
   A thread off its CPU: `woken` and `saved` say which of the two events that its
   return to the queue waits for have happened.
   */
  ghost predicate Parked(s: Sched, pid: nat, reason: BlockReason, woken: bool, saved: bool) {
    var id := KernelThread(pid);
    && id in s.entities && pid in s.processes && s.entities[id].published == saved
    && s.entities[id].state == (if woken then Ready else Blocked)
    && s.processes[pid].state == (if woken then ProcessReady else ProcessBlocked)
    && (!woken ==> s.processes[pid].reason == Some(reason))
    && (id in s.queue <==> woken && saved)
  }

  lemma BlockParks(s: Sched, cpu: nat, pid: nat, reason: BlockReason)
    requires SchedInv(s) && cpu < MAX_CPUS && s.current[cpu] == Some(KernelThread(pid))
    ensures Parked(CurrentBlocked(s, cpu, reason), pid, reason, false, false)
  {
    var id := KernelThread(pid);
    IsCurrentAt(s, cpu);
    assert EntityOk(s, id) && ProcessOk(s, pid);
    RemovedMembers(s.queue, id, id);
  }

  /** Not a step on this thread: nothing about it changes, unless it is dispatched. */
  ghost predicate Untouched(s: Sched, t: Sched, pid: nat) {
    var id := KernelThread(pid);
    && id in t.entities && pid in t.processes && id in s.entities && pid in s.processes
    && t.entities[id].published == s.entities[id].published && t.entities[id].state == s.entities[id].state
    && t.processes[pid].state == s.processes[pid].state && t.processes[pid].reason == s.processes[pid].reason
    && (id in t.queue <==> id in s.queue)
  }

  lemma QueueEdits(q: seq<EntityId>, x: EntityId, id: EntityId)
    requires NoDuplicates(q) && x != id
    ensures id in Removed(q, x) <==> id in q
    ensures id in Enqueued(q, x) <==> id in q
  {
    RemovedMembers(q, x, id);
    EnqueuedMembers(q, x, id);
  }

  lemma DispatchTouches(s: Sched, k: nat, cpu: nat, now: nat, pid: nat)
    requires SchedInv(s) && k < |s.queue| && cpu < |s.current| && KernelThread(pid) in s.entities
    requires s.queue[k] != KernelThread(pid)
    ensures Untouched(s, Dispatched(s, k, cpu, now), pid)
  {
    assert ProcessOk(s, pid) && EntityOk(s, s.queue[k]);
    RemovedAtMembers(s.queue, k, KernelThread(pid));
  }

  lemma ScheduleTouches(s: Sched, cpu: nat, now: nat, pid: nat)
    requires SchedInv(s) && cpu < |s.current| && KernelThread(pid) in s.entities
    ensures
      || Untouched(s, Scheduled(s, cpu, now), pid)
      || (KernelThread(pid) in s.queue && IsCurrent(Scheduled(s, cpu, now), KernelThread(pid)))
  {
    assert ProcessOk(s, pid);
    var k := PickIndex(s, now, cpu);
    if k.Some? {
      if s.queue[k.value] == KernelThread(pid) {
        assert Scheduled(s, cpu, now).current[cpu] == Some(KernelThread(pid));
      } else {
        DispatchTouches(s, k.value, cpu, now, pid);
      }
    }
  }

  lemma PreemptTouches(s: Sched, cpu: nat, now: nat, pid: nat)
    requires SchedInv(s) && cpu < |s.current| && s.current[cpu].Some? && KernelThread(pid) in s.entities
    requires !IsCurrent(s, KernelThread(pid))
    ensures var t := Preempted(s, s.current[cpu].value, cpu, now);
            Untouched(s, t, pid) || (KernelThread(pid) in s.queue && IsCurrent(t, KernelThread(pid)))
  {
    assert ProcessOk(s, pid);
    IsCurrentAt(s, cpu);
    var id := s.current[cpu].value;
    DisplacedInv(s, id, cpu);
    var d := Displaced(s, id, cpu);
    assert Untouched(s, d, pid);
    if PickIndex(d, now, cpu).Some? {
      ScheduleTouches(d, cpu, now, pid);
    }
  }

  lemma PopTouches(s: Sched, cpu: nat, pid: nat)
    requires SchedInv(s) && cpu < |s.current| && KernelThread(pid) in s.entities
    ensures Untouched(s, UserPopped(s, cpu), pid)
  {
    assert ProcessOk(s, pid);
    var k := FirstUser(s, cpu, 0);
    if k.Some? {
      RemovedAtMembers(s.queue, k.value, KernelThread(pid));
    }
  }

  lemma CurrentBlockTouches(s: Sched, cpu: nat, reason: BlockReason, pid: nat)
    requires SchedInv(s) && cpu < |s.current| && KernelThread(pid) in s.entities && !IsCurrent(s, KernelThread(pid))
    ensures Untouched(s, CurrentBlocked(s, cpu, reason), pid)
  {
    assert ProcessOk(s, pid);
    if s.current[cpu].Some? {
      IsCurrentAt(s, cpu);
      QueueEdits(s.queue, s.current[cpu].value, KernelThread(pid));
    }
  }

  lemma CurrentEndTouches(s: Sched, cpu: nat, pid: nat)
    requires SchedInv(s) && cpu < |s.current| && KernelThread(pid) in s.entities && !IsCurrent(s, KernelThread(pid))
    ensures Untouched(s, CurrentTerminated(s, cpu), pid)
  {
    assert ProcessOk(s, pid);
    if s.current[cpu].Some? {
      IsCurrentAt(s, cpu);
      QueueEdits(s.queue, s.current[cpu].value, KernelThread(pid));
    }
  }

  lemma CurrentMarks(s: Sched, cpu: nat, user: nat, pid: nat)
    requires SchedInv(s) && cpu < |s.current| && KernelThread(pid) in s.entities && !IsCurrent(s, KernelThread(pid))
    ensures s.current[cpu].Some? ==> Untouched(s, Saving(s, s.current[cpu].value), pid)
    ensures Untouched(s, CurrentYielded(s, cpu), pid) && Untouched(s, UserCleared(s, cpu, user), pid)
  {
    assert ProcessOk(s, pid);
    if s.current[cpu].Some? {
      IsCurrentAt(s, cpu);
    }
  }

  lemma ForcedTouches(s: Sched, cpu: nat, id: EntityId, pid: nat)
    requires SchedInv(s) && cpu < |s.current| && KernelThread(pid) in s.entities && !IsCurrent(s, KernelThread(pid))
    requires id.UserProcess?
    ensures Untouched(s, ForcedRunning(s, cpu, id), pid)
  {
    assert ProcessOk(s, pid);
    QueueEdits(s.queue, id, KernelThread(pid));
    if s.current[cpu].Some? {
      IsCurrentAt(s, cpu);
    }
  }

  lemma ReadyTouches(s: Sched, id: EntityId, contract: Option<nat>, now: nat, pid: nat)
    requires SchedInv(s) && KernelThread(pid) in s.entities && id != KernelThread(pid)
    ensures Untouched(s, MadeReady(s, id, contract, now), pid)
  {
    assert ProcessOk(s, pid);
    QueueEdits(s.queue, id, KernelThread(pid));
  }

  lemma NamedTouches(s: Sched, id: EntityId, cpu: nat, pid: nat)
    requires SchedInv(s) && KernelThread(pid) in s.entities && id != KernelThread(pid) && cpu < |s.current|
    ensures Untouched(s, BlockedEntity(s, id), pid) && Untouched(s, Published(s, id), pid)
    ensures Untouched(s, Yielded(s, cpu, id), pid) && Untouched(s, Unregistered(s, id), pid)
  {
    assert ProcessOk(s, pid);
    QueueEdits(s.queue, id, KernelThread(pid));
  }

  lemma SpawnTouches(s: Sched, other: nat, now: nat, pid: nat)
    requires SchedInv(s) && KernelThread(pid) in s.entities && KernelThread(other) !in s.entities
    ensures Untouched(s, Spawned(s, other, now), pid)
  {
    assert ProcessOk(s, pid);
    QueueEdits(s.queue, KernelThread(other), KernelThread(pid));
  }

  lemma OtherWokenTouches(s: Sched, other: nat, contract: Option<nat>, now: nat, pid: nat)
    requires SchedInv(s) && KernelThread(pid) in s.entities && other != pid
    ensures Untouched(s, Woken(s, other, contract, now), pid)
  {
    assert ProcessOk(s, pid);
    QueueEdits(s.queue, KernelThread(other), KernelThread(pid));
  }

  lemma OtherEndsTouches(s: Sched, other: nat, pid: nat)
    requires SchedInv(s) && KernelThread(pid) in s.entities && other != pid
    ensures Untouched(s, Terminated(s, other), pid)
  {
    assert ProcessOk(s, pid);
    var q := Removed(s.queue, KernelThread(other));
    RemovedMembers(s.queue, KernelThread(other), KernelThread(pid));
    RemovedMembers(q, KernelThread(other), KernelThread(pid));
  }

  lemma StillUntouched(s: Sched, st: Step, pid: nat)
    requires SchedInv(s) && Enabled(s, st) && KernelThread(pid) in s.entities && (st.RegisterUser? || st.SetAffinity?)
    ensures Untouched(s, Apply(s, st), pid)
  {
    assert ProcessOk(s, pid);
  }

  /** The thread is left alone, or dispatched from the queue. */
  ghost predicate Passed(s: Sched, t: Sched, pid: nat) {
    Untouched(s, t, pid) || (KernelThread(pid) in s.queue && IsCurrent(t, KernelThread(pid)))
  }

  predicate OnCpu(st: Step) {
    || st.Schedule? || st.Preempt? || st.PopUser? || st.BlockCurrent? || st.TerminateCurrent? || st.BeginSave?
    || st.YieldCurrent? || st.ClearUser? || st.SetRunning?
  }

  lemma CpuStepPasses(s: Sched, st: Step, pid: nat)
    requires SchedInv(s) && Enabled(s, st) && KernelThread(pid) in s.entities && !IsCurrent(s, KernelThread(pid))
    requires OnCpu(st) && !Disturbs(st, pid)
    ensures Passed(s, Apply(s, st), pid)
  {
    hide SchedInv, Untouched, Scheduled, Preempted, UserPopped, CurrentBlocked, Saving, CurrentYielded,
         CurrentTerminated, UserCleared, ForcedRunning;
    match st
    case Schedule(cpu, now) => ScheduleTouches(s, cpu, now, pid);
    case Preempt(cpu, now) => PreemptTouches(s, cpu, now, pid);
    case PopUser(cpu) => PopTouches(s, cpu, pid);
    case BlockCurrent(cpu, why) => CurrentBlockTouches(s, cpu, why, pid);
    case TerminateCurrent(cpu) => CurrentEndTouches(s, cpu, pid);
    case BeginSave(cpu) => CurrentMarks(s, cpu, 0, pid);
    case YieldCurrent(cpu) => CurrentMarks(s, cpu, 0, pid);
    case ClearUser(cpu, user) => CurrentMarks(s, cpu, user, pid);
    case SetRunning(cpu, id) => ForcedTouches(s, cpu, id, pid);
  }

  lemma NamedStepPasses(s: Sched, st: Step, pid: nat, reason: BlockReason, woken: bool, saved: bool)
    requires SchedInv(s) && Enabled(s, st) && Parked(s, pid, reason, woken, saved) && !OnCpu(st)
    requires !Wakes(st, pid, reason) && !Saves(st, pid) && !Disturbs(st, pid)
    ensures Untouched(s, Apply(s, st), pid)
  {
    hide SchedInv, Untouched, MadeReady, BlockedEntity, Published, Yielded, Unregistered, Spawned, Woken, Terminated;
    match st
    case MakeReady(id, contract, now) => ReadyTouches(s, id, contract, now, pid);
    case Block(id) => NamedTouches(s, id, 0, pid);
    case Publish(id) => NamedTouches(s, id, 0, pid);
    case Yield(cpu, id) => NamedTouches(s, id, cpu, pid);
    case Unregister(id) => NamedTouches(s, id, 0, pid);
    case Spawn(other, now) => SpawnTouches(s, other, now, pid);
    case Wake(other, contract, now) => OtherWokenTouches(s, other, contract, now, pid);
    case Terminate(other) => OtherEndsTouches(s, other, pid);
    case WakeIo(other, token, now) => IoTouches(s, other, token, now, pid, reason, woken, saved);
    case _ => StillUntouched(s, st, pid);
  }

  /** Every step that is not about the thread leaves it alone or dispatches it from the queue. */
  lemma OtherStep(s: Sched, st: Step, pid: nat, reason: BlockReason, woken: bool, saved: bool)
    requires SchedInv(s) && Enabled(s, st) && Parked(s, pid, reason, woken, saved)
    requires !Wakes(st, pid, reason) && !Saves(st, pid) && !Disturbs(st, pid)
    ensures Passed(s, Apply(s, st), pid)
  {
    hide SchedInv, Apply, Enabled, Untouched;
    if OnCpu(st) {
      NotCurrent(s, KernelThread(pid));
      CpuStepPasses(s, st, pid);
    } else {
      NamedStepPasses(s, st, pid, reason, woken, saved);
    }
  }

  lemma IoTouches(s: Sched, other: nat, token: nat, now: nat, pid: nat, reason: BlockReason, woken: bool, saved: bool)
    requires SchedInv(s) && Parked(s, pid, reason, woken, saved)
    requires !(other == pid && reason == WaitingForBlockIo(token))
    ensures Untouched(s, IoWoken(s, other, token, now), pid)
  {
    assert ProcessOk(s, pid);
    if other != pid {
      OtherWokenTouches(s, other, None, now, pid);
    }
  }

  lemma NotCurrent(s: Sched, id: EntityId)
    requires SchedInv(s) && id in s.entities && s.entities[id].state != Running
    ensures !IsCurrent(s, id)
  {
    assert EntityOk(s, id);
  }

  lemma WakeStep(s: Sched, st: Step, pid: nat, reason: BlockReason, woken: bool, saved: bool)
    requires SchedInv(s) && Enabled(s, st) && Parked(s, pid, reason, woken, saved) && Wakes(st, pid, reason)
    ensures Parked(Apply(s, st), pid, reason, true, saved)
  {
    NotCurrent(s, KernelThread(pid));
    EnqueuedMembers(s.queue, KernelThread(pid), KernelThread(pid));
  }

  lemma SaveStep(s: Sched, st: Step, pid: nat, reason: BlockReason, woken: bool, saved: bool)
    requires SchedInv(s) && Enabled(s, st) && Parked(s, pid, reason, woken, saved) && Saves(st, pid)
    ensures Parked(Apply(s, st), pid, reason, woken, true)
  {
    EnqueuedMembers(s.queue, KernelThread(pid), KernelThread(pid));
  }

  predicate Happened(steps: seq<Step>, p: Step -> bool) {
    exists k :: 0 <= k < |steps| && p(steps[k])
  }

  /** The thread stays off every CPU throughout a run. */
  predicate NeverDispatched(s: Sched, steps: seq<Step>, id: EntityId)
    requires EnabledRun(s, steps)
    decreases |steps|
  {
    !IsCurrent(s, id) && (steps == [] || NeverDispatched(Apply(s, steps[0]), steps[1..], id))
  }

  /**
   Along any run that starts when a thread blocks, and as long as it has not been
   dispatched again, the thread is in the ready queue exactly when both its wake
   and the end of its context save have happened, in either order: it enters at
   the later of the two, never before, and (the queue having no duplicates) once.
   */
  lemma {:induction false} WakeOnce(s: Sched, steps: seq<Step>, pid: nat, reason: BlockReason, woken: bool, saved: bool)
    requires SchedInv(s) && EnabledRun(s, steps) && Parked(s, pid, reason, woken, saved)
    requires forall k | 0 <= k < |steps| :: !Disturbs(steps[k], pid)
    requires NeverDispatched(s, steps, KernelThread(pid))
    ensures Parked(Run(s, steps), pid, reason,
                   woken || Happened(steps, st => Wakes(st, pid, reason)),
                   saved || Happened(steps, st => Saves(st, pid)))
    decreases |steps|
  {
    if steps != [] {
      var st := steps[0];
      ParkedStep(s, st, pid, reason, woken, saved);
      StepInv(s, st);
      var woken', saved' := woken || Wakes(st, pid, reason), saved || Saves(st, pid);
      WakeOnce(Apply(s, st), steps[1..], pid, reason, woken', saved');
      HappenedHead(steps, st => Wakes(st, pid, reason));
      HappenedHead(steps, st => Saves(st, pid));
    }
  }

  /**
   If a run of any kind brings the thread back to a CPU, then its first dispatch,
   by the step at `k`, comes after both the wake and the end of the save.
   */
  lemma {:induction false} DispatchedAfterBoth(s: Sched, steps: seq<Step>, pid: nat, reason: BlockReason,
      woken: bool, saved: bool)
    returns (k: nat)
    requires SchedInv(s) && EnabledRun(s, steps) && Parked(s, pid, reason, woken, saved)
    requires forall k | 0 <= k < |steps| :: !Disturbs(steps[k], pid)
    requires !NeverDispatched(s, steps, KernelThread(pid))
    ensures k < |steps| && EnabledRun(s, steps[..k]) && NeverDispatched(s, steps[..k], KernelThread(pid))
    ensures EnabledRun(s, steps[..k + 1]) && IsCurrent(Run(s, steps[..k + 1]), KernelThread(pid))
    ensures woken || Happened(steps[..k], st => Wakes(st, pid, reason))
    ensures saved || Happened(steps[..k], st => Saves(st, pid))
    decreases |steps|
  {
    hide SchedInv, Enabled, Apply, Happened;
    NotCurrent(s, KernelThread(pid));
    var st, t := steps[0], Apply(s, steps[0]);
    ParkedStep(s, st, pid, reason, woken, saved);
    StepInv(s, st);
    if woken && saved && IsCurrent(t, KernelThread(pid)) {
      assert steps[..1] == [st] && steps[..0] == [];
      return 0;
    }
    var woken', saved' := woken || Wakes(st, pid, reason), saved || Saves(st, pid);
    NotCurrent(t, KernelThread(pid));
    k := DispatchedAfterBoth(t, steps[1..], pid, reason, woken', saved');
    assert steps[..k + 1][1..] == steps[1..][..k] && steps[..k + 2][1..] == steps[1..][..k + 1];
    HappenedHead(steps[..k + 1], st => Wakes(st, pid, reason));
    HappenedHead(steps[..k + 1], st => Saves(st, pid));
    k := k + 1;
  }

  lemma HappenedHead(steps: seq<Step>, p: Step -> bool)
    requires steps != []
    ensures Happened(steps, p) <==> p(steps[0]) || Happened(steps[1..], p)
  {
    if Happened(steps, p) && !p(steps[0]) {
      var k :| 0 <= k < |steps| && p(steps[k]);
      assert steps[1..][k - 1] == steps[k];
    }
    if Happened(steps[1..], p) {
      var k :| 0 <= k < |steps[1..]| && p(steps[1..][k]);
      assert steps[k + 1] == steps[1..][k];
    }
  }

  lemma ParkedStep(s: Sched, st: Step, pid: nat, reason: BlockReason, woken: bool, saved: bool)
    requires SchedInv(s) && Enabled(s, st) && Parked(s, pid, reason, woken, saved) && !Disturbs(st, pid)
    ensures || Parked(Apply(s, st), pid, reason, woken || Wakes(st, pid, reason), saved || Saves(st, pid))
            || (woken && saved && IsCurrent(Apply(s, st), KernelThread(pid)))
  {
    hide SchedInv, Enabled, Apply;
    if Wakes(st, pid, reason) {
      WakeStep(s, st, pid, reason, woken, saved);
    } else if Saves(st, pid) {
      SaveStep(s, st, pid, reason, woken, saved);
    } else {
      OtherStep(s, st, pid, reason, woken, saved);
    }
  }
}
