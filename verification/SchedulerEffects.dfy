/**
 What each transition of the scheduler does, field by field, and what it leaves
 alone. Then, over whole runs: a thread that yields or is preempted comes back to
 the queue, an affinity is kept until the next one, and a request to terminate
 stands until the thread is gone.
 */
module SchedulerEffects {
  import opened Base
  import opened SchedulerSpec
  import opened SchedulerSafety
  import opened SchedulerRuns

  /** No entity but one is touched, and at most its own process. */
  ghost predicate OnlyTouches(s: Sched, t: Sched, id: EntityId) {
    && t.entities - {id} == s.entities - {id}
    && t.processes - {id.pid} == s.processes - {id.pid}
    && (id.UserProcess? ==> t.processes == s.processes)
    && t.idle == s.idle && |t.current| == |s.current|
  }

  // ---------------------------------------------------------- field by field

  lemma ReadyFacts(s: Sched, id: EntityId, contract: Option<nat>, now: nat)
    requires SchedInv(s) && id in s.entities && !IsCurrent(s, id)
    ensures var t := MadeReady(s, id, contract, now);
            && OnlyTouches(s, t, id) && t.current == s.current && t.misses == s.misses
            && id in t.entities && t.entities[id].state == Ready
            && t.entities[id].published == s.entities[id].published
            && t.entities[id].affinity == s.entities[id].affinity
            && t.queue == (if id in s.queue || !s.entities[id].published then s.queue else s.queue + [id])
            && (s.entities[id].state == Blocked ==>
                  && t.entities[id].readySince == now && t.entities[id].contract == contract
                  && t.entities[id].mustRunBy.Some? == contract.Some?
                  && (contract.Some? ==> t.entities[id].mustRunBy.value == Min(now + contract.value, U64_END - 1))
                  && (id.KernelThread? ==>
                        && id.pid in t.processes && t.processes[id.pid].state == ProcessReady
                        && t.processes[id.pid].reason.None?))
  {
    assert EntityOk(s, id) && ProcessOk(s, id.pid);
  }

  lemma BlockFacts(s: Sched, id: EntityId)
    requires SchedInv(s)
    ensures var t := BlockedEntity(s, id);
            && OnlyTouches(s, t, id) && t.processes == s.processes && t.misses == s.misses
            && id !in t.queue && !IsCurrent(t, id)
            && (id in s.entities ==>
                  id in t.entities && t.entities[id] == s.entities[id].(state := Blocked, mustRunBy := None))
            && forall c | 0 <= c < |s.current| && s.current[c] != Some(id) :: t.current[c] == s.current[c]
  {
    hide ClearCurrent, Removed, EntityOk, ProcessOk;
    RemovedMembers(s.queue, id, id);
    ClearedSlots(s.current, id);
  }

  lemma ClearedSlots(current: seq<Option<EntityId>>, id: EntityId)
    ensures var after := ClearCurrent(current, id);
            && |after| == |current| && Some(id) !in after
            && forall c | 0 <= c < |current| && current[c] != Some(id) :: after[c] == current[c]
  {
  }

  lemma GoneFacts(s: Sched, id: EntityId)
    requires SchedInv(s)
    ensures var t := Unregistered(s, id);
            && OnlyTouches(s, t, id) && t.processes == s.processes
            && id !in t.entities && id !in t.queue && !IsCurrent(t, id)
            && forall c | 0 <= c < |s.current| && s.current[c] != Some(id) :: t.current[c] == s.current[c]
  {
    hide ClearCurrent, Removed, EntityOk, ProcessOk;
    RemovedMembers(s.queue, id, id);
    ClearedSlots(s.current, id);
  }

  lemma PublishFacts(s: Sched, id: EntityId)
    requires SchedInv(s) && id in s.entities
    ensures var t := Published(s, id);
            && OnlyTouches(s, t, id) && t.processes == s.processes && t.current == s.current
            && id in t.entities && t.entities[id] == s.entities[id].(published := true)
            && (id in t.queue <==> t.entities[id].state == Ready)
  {
    assert EntityOk(s, id);
  }

  lemma DispatchFacts(s: Sched, k: nat, cpu: nat, now: nat)
    requires SchedInv(s) && k < |s.queue| && cpu < |s.current|
    ensures var t, id := Dispatched(s, k, cpu, now), s.queue[k];
            && OnlyTouches(s, t, id) && id !in t.queue && t.current == s.current[cpu := Some(id)]
            && id in s.entities && id in t.entities
            && t.entities[id].state == Running && t.entities[id].mustRunBy.None? && t.entities[id].contract.None?
            && t.entities[id].published && t.entities[id].affinity == s.entities[id].affinity
            && t.entities[id].runtimeTicks == s.entities[id].runtimeTicks
            && (id.KernelThread? ==> id.pid in t.processes && t.processes[id.pid].state == ProcessRunning)
  {
    var id := s.queue[k];
    assert EntityOk(s, id) && ProcessOk(s, id.pid);
    RemovedAtMembers(s.queue, k, id);
  }

  lemma PopFacts(s: Sched, cpu: nat, k: nat)
    requires SchedInv(s) && cpu < |s.current| && FirstUser(s, cpu, 0) == Some(k)
    ensures var t, id := UserPopped(s, cpu), s.queue[k];
            && OnlyTouches(s, t, id) && id.UserProcess? && id !in t.queue && t.current == s.current[cpu := Some(id)]
            && id in t.entities && t.entities[id].state == Running && t.entities[id].mustRunBy.None?
            && t.entities[id].published && t.entities[id].affinity == s.entities[id].affinity
  {
    var id := s.queue[k];
    assert EntityOk(s, id);
    RemovedAtMembers(s.queue, k, id);
  }

  lemma {:induction false} FirstUserIs(s: Sched, cpu: nat, from: nat)
    requires from <= |s.queue|
    ensures var r := FirstUser(s, cpu, from);
            forall j: nat | from <= j && Eligible(s, j, cpu) && s.queue[j].UserProcess? :: r.Some? && r.value <= j
    decreases |s.queue| - from
  {
    if from < |s.queue| && !(s.queue[from].UserProcess? && Eligible(s, from, cpu)) {
      FirstUserIs(s, cpu, from + 1);
    }
  }

  lemma ClearFacts(s: Sched, cpu: nat, pid: nat)
    requires SchedInv(s) && cpu < |s.current| && s.current[cpu] == Some(UserProcess(pid))
    ensures var t, id := UserCleared(s, cpu, pid), UserProcess(pid);
            && OnlyTouches(s, t, id) && t.queue == s.queue && t.current == s.current[cpu := None] && !IsCurrent(t, id)
            && id in s.entities && id in t.entities && t.entities[id] == s.entities[id].(state := Blocked)
  {
    IsCurrentAt(s, cpu);
    assert EntityOk(s, UserProcess(pid));
  }

  lemma YieldFacts(s: Sched, cpu: nat, id: EntityId)
    requires SchedInv(s) && Enabled(s, Step.Yield(cpu, id))
    ensures var t := Yielded(s, cpu, id);
            && OnlyTouches(s, t, id) && t.processes == s.processes
            && id in s.entities && id in t.entities && id in t.queue && !IsCurrent(t, id)
            && t.entities[id] == s.entities[id].(state := Ready, mustRunBy := None, published := true)
            && t.queue == (if id in s.queue then s.queue else s.queue + [id])
  {
    YieldedInv(s, cpu, id);
    assert EntityOk(Yielded(s, cpu, id), id);
  }

  lemma ParkFacts(s: Sched, cpu: nat, pid: nat, reason: BlockReason)
    requires SchedInv(s) && cpu < MAX_CPUS && s.current[cpu] == Some(KernelThread(pid))
    ensures var t, id := CurrentBlocked(s, cpu, reason), KernelThread(pid);
            && OnlyTouches(s, t, id) && t.queue == s.queue && t.current == s.current[cpu := None]
            && pid in s.processes && pid in t.processes
            && t.processes[pid] == s.processes[pid].(state := ProcessBlocked, reason := Some(reason))
            && id in s.entities && id in t.entities
            && t.entities[id] == s.entities[id].(state := Blocked, mustRunBy := None, published := false)
  {
    var id := KernelThread(pid);
    IsCurrentAt(s, cpu);
    assert EntityOk(s, id) && ProcessOk(s, pid);
    assert OneCpuEach(s.current);
    hide SchedInv, EntityOk, ProcessOk;
    RemovedAbsent(s.queue, id);
    ClearedAt(s.current, cpu, id);
    hide ClearCurrent, Removed;
    var p := s.processes[pid].(state := ProcessBlocked, reason := Some(reason));
    var saving := s.entities[id].(published := false);
    var e := s.entities[id].(state := Blocked, mustRunBy := None, published := false);
    SetTwice(s.entities, id, saving, e);
    assert CurrentBlocked(s, cpu, reason) ==
           s.(processes := s.processes[pid := p], entities := s.entities[id := e], current := s.current[cpu := None]);
    hide CurrentBlocked;
    Without(s.processes, pid, p);
    Without(s.entities, id, e);
  }

  lemma ClearedAt(current: seq<Option<EntityId>>, cpu: nat, id: EntityId)
    requires OneCpuEach(current) && cpu < |current| && current[cpu] == Some(id)
    ensures ClearCurrent(current, id) == current[cpu := None]
  {
  }

  lemma SaveFacts(s: Sched, id: EntityId)
    requires id in s.entities
    ensures var t := Saving(s, id);
            && t == s.(entities := t.entities) && t.entities - {id} == s.entities - {id} && id in t.entities
            && t.entities[id] == s.entities[id].(published := false)
  {
  }

  lemma ForceFacts(s: Sched, cpu: nat, id: EntityId)
    requires SchedInv(s) && Enabled(s, Step.SetRunning(cpu, id))
    ensures var t := ForcedRunning(s, cpu, id);
            && t.processes == s.processes && t.current == s.current[cpu := Some(id)] && id !in t.queue
            && id in t.entities
            && t.entities[id] == (if id in s.entities then s.entities[id].(state := Running, mustRunBy := None)
                                  else Entity(Running, 0, 0, None, None, true, None))
            && var was := s.current[cpu];
               if was.Some? && was.value != id
               then
                 && was.value in s.entities && t.entities - {id, was.value} == s.entities - {id, was.value}
                 && was.value in t.entities && t.entities[was.value] == s.entities[was.value].(state := Blocked)
               else t.entities - {id} == s.entities - {id}
  {
    RemovedMembers(s.queue, id, id);
    if s.current[cpu].Some? {
      IsCurrentAt(s, cpu);
      assert EntityOk(s, s.current[cpu].value);
    }
  }

  /** A thread that yields is off every CPU and ready, and waits only for the end of its save. */
  lemma YieldParks(s: Sched, cpu: nat, pid: nat, reason: BlockReason)
    requires SchedInv(s) && cpu < MAX_CPUS && s.current[cpu] == Some(KernelThread(pid))
    ensures var t, id := CurrentYielded(s, cpu), KernelThread(pid);
            && OnlyTouches(s, t, id) && t.queue == s.queue && t.current == s.current[cpu := None]
            && id in s.entities && t.entities[id] == s.entities[id].(state := Ready, published := false)
            && !IsCurrent(t, id) && id !in t.queue && Parked(t, pid, reason, true, false)
  {
    var id := KernelThread(pid);
    IsCurrentAt(s, cpu);
    assert EntityOk(s, id) && ProcessOk(s, pid);
    CurrentYieldedInv(s, cpu);
    assert EntityOk(CurrentYielded(s, cpu), id);
  }

  /** A preempted entity runs on, or gives way with its save under way; either way its tick is counted. */
  lemma PreemptFacts(s: Sched, cpu: nat, now: nat, id: EntityId)
    requires SchedInv(s) && cpu < MAX_CPUS && s.current[cpu] == Some(id)
    ensures var t := Preempted(s, id, cpu, now);
            && id in s.entities && id in t.entities && |t.current| == MAX_CPUS
            && var e := s.entities[id].(runtimeTicks := Min(s.entities[id].runtimeTicks + 1, U64_END - 1),
                                        mustRunBy := None);
               if t.current[cpu] == Some(id) then t.entities[id] == e.(state := Running, published := true)
               else t.entities[id] == e.(state := Ready, published := false) && !IsCurrent(t, id) && id !in t.queue
  {
    IsCurrentAt(s, cpu);
    assert EntityOk(s, id);
    var d := Displaced(s, id, cpu);
    DisplacedInv(s, id, cpu);
    assert EntityOk(d, id);
    if PickIndex(d, now, cpu).Some? {
      var k := PickIndex(d, now, cpu).value;
      DispatchFacts(d, k, cpu, now);
      RemovedAtMembers(d.queue, k, id);
    }
  }

  /** A preempted thread runs on, or gives way and waits only for the end of its save. */
  lemma PreemptParks(s: Sched, cpu: nat, now: nat, pid: nat, reason: BlockReason)
    requires SchedInv(s) && cpu < MAX_CPUS && s.current[cpu] == Some(KernelThread(pid))
    ensures var t, id := Preempted(s, KernelThread(pid), cpu, now), KernelThread(pid);
            && id in s.entities && id in t.entities
            && (t.current[cpu] == Some(id) || (!IsCurrent(t, id) && Parked(t, pid, reason, true, false)))
  {
    var id := KernelThread(pid);
    IsCurrentAt(s, cpu);
    assert EntityOk(s, id) && ProcessOk(s, pid);
    var d := Displaced(s, id, cpu);
    DisplacedInv(s, id, cpu);
    assert EntityOk(d, id) && ProcessOk(d, pid);
    if PickIndex(d, now, cpu).Some? {
      var k := PickIndex(d, now, cpu).value;
      DispatchFacts(d, k, cpu, now);
      RemovedAtMembers(d.queue, k, id);
    }
  }

  lemma WakeFacts(s: Sched, pid: nat, contract: Option<nat>, now: nat)
    requires SchedInv(s) && pid in s.processes && s.processes[pid].state == ProcessBlocked
    ensures var t, id := Woken(s, pid, contract, now), KernelThread(pid);
            && OnlyTouches(s, t, id) && t.current == s.current
            && t.processes[pid].state == ProcessReady && t.processes[pid].reason.None?
            && id in s.entities && id in t.entities && t.entities[id].state == Ready
            && t.entities[id].published == s.entities[id].published
            && (id in t.queue <==> t.entities[id].published)
            && (s.entities[id].state == Blocked && contract.Some? ==>
                  t.entities[id].mustRunBy == Some(Min(now + contract.value, U64_END - 1)))
  {
    var id := KernelThread(pid);
    assert EntityOk(s, id) && ProcessOk(s, pid);
  }

  lemma TerminateFacts(s: Sched, pid: nat)
    requires SchedInv(s)
    ensures var t, id := Terminated(s, pid), KernelThread(pid);
            if IsCurrent(s, id)
            then
              && pid in s.processes && t.entities == s.entities && t.queue == s.queue && t.current == s.current
              && t.processes == s.processes[pid := s.processes[pid].(terminationRequested := true)]
            else
              && OnlyTouches(s, t, id) && t.current == s.current
              && pid !in t.processes && id !in t.entities && id !in t.queue
  {
    var id := KernelThread(pid);
    assert EntityOk(s, id) && ProcessOk(s, pid);
    if !IsCurrent(s, id) {
      EndFacts(s, pid);
    }
  }

  lemma EndFacts(s: Sched, pid: nat)
    requires NoDuplicates(s.queue) && !IsCurrent(s, KernelThread(pid))
    ensures var t, id := Terminated(s, pid), KernelThread(pid);
            && OnlyTouches(s, t, id) && t.current == s.current
            && pid !in t.processes && id !in t.entities && id !in t.queue
  {
    var id := KernelThread(pid);
    RemovedMembers(s.queue, id, id);
    RemovedAbsent(Removed(s.queue, id), id);
    assert ClearCurrent(s.current, id) == s.current;
  }

  lemma ExitFacts(s: Sched, cpu: nat, pid: nat)
    requires SchedInv(s) && cpu < MAX_CPUS && s.current[cpu] == Some(KernelThread(pid))
    ensures var t, id := CurrentTerminated(s, cpu), KernelThread(pid);
            && OnlyTouches(s, t, id) && t.current == s.current[cpu := None]
            && pid !in t.processes && id !in t.entities && id !in t.queue && !IsCurrent(t, id)
  {
    hide Removed, ClearCurrent, EntityOk, ProcessOk;
    var id := KernelThread(pid);
    RemovedMembers(s.queue, id, id);
    ClearedOnce(s.current, cpu, id);
    assert CurrentTerminated(s, cpu) ==
           s.(processes := s.processes - {pid}, entities := s.entities - {id}, queue := Removed(s.queue, id),
              current := s.current[cpu := None]);
    hide CurrentTerminated;
    GoneTwice(s.processes, pid);
    GoneTwice(s.entities, id);
  }

  lemma GoneTwice<K, V>(m: map<K, V>, k: K)
    ensures m - {k} - {k} == m - {k}
  {
  }

  lemma ClearedOnce(current: seq<Option<EntityId>>, cpu: nat, id: EntityId)
    requires OneCpuEach(current) && cpu < |current| && current[cpu] == Some(id)
    ensures Some(id) !in current[cpu := None] && ClearCurrent(current[cpu := None], id) == current[cpu := None]
  {
  }

  lemma SpawnFacts(s: Sched, pid: nat, now: nat)
    requires SchedInv(s) && Enabled(s, Step.Spawn(pid, now))
    ensures var t, id := Spawned(s, pid, now), KernelThread(pid);
            && OnlyTouches(s, t, id) && t.current == s.current && t.queue == s.queue + [id]
            && pid in t.processes && t.processes[pid] == Process(ProcessReady, None, false)
            && id in t.entities && t.entities[id] == Entity(Ready, 0, now, None, None, true, None)
  {
    var id := KernelThread(pid);
    assert id !in s.queue && !IsCurrent(s, id) by {
      assert EntityOk(s, id) && ProcessOk(s, pid);
    }
    hide SchedInv, IsCurrent;
    var p, e := Process(ProcessReady, None, false), Entity(Ready, 0, now, None, None, true, None);
    SetTwice(s.processes, pid, p, p);
    SetTwice(s.entities, id, NEW_ENTITY, e);
    assert Spawned(s, pid, now) ==
           s.(processes := s.processes[pid := p], entities := s.entities[id := e], queue := s.queue + [id]);
    hide Spawned, MadeReady;
    Without(s.processes, pid, p);
    Without(s.entities, id, e);
  }

  lemma SetTwice<K, V>(m: map<K, V>, k: K, v: V, w: V)
    ensures m[k := v][k := w] == m[k := w]
  {
  }

  lemma Without<K, V>(m: map<K, V>, k: K, v: V)
    ensures m[k := v] - {k} == m - {k}
  {
  }

  lemma RegisterFacts(s: Sched, pid: nat)
    ensures var t, id := UserRegistered(s, pid), UserProcess(pid);
            && id in t.entities && t == s.(entities := t.entities) && t.entities - {id} == s.entities - {id}
            && t.entities[id] == if id in s.entities then s.entities[id]
                                 else Entity(Blocked, 0, 0, None, None, true, None)
  {
  }

  lemma BindFacts(s: Sched, id: EntityId, affinity: Option<nat>)
    requires id in s.entities
    ensures var t := Bound(s, id, affinity);
            && t == s.(entities := t.entities) && t.entities - {id} == s.entities - {id} && id in t.entities
            && t.entities[id] == s.entities[id].(affinity := affinity)
  {
  }

  // --------------------------------------------------------- coming back to the queue

  /**
   Along any run after a yield, and as long as the thread has not been dispatched
   again, it is in the queue exactly once its save has been published.
   */
  lemma YieldComesBack(s: Sched, cpu: nat, pid: nat, steps: seq<Step>)
    requires SchedInv(s) && cpu < MAX_CPUS && s.current[cpu] == Some(KernelThread(pid))
    requires EnabledRun(CurrentYielded(s, cpu), steps) && forall k | 0 <= k < |steps| :: !Disturbs(steps[k], pid)
    requires NeverDispatched(CurrentYielded(s, cpu), steps, KernelThread(pid))
    ensures KernelThread(pid) in Run(CurrentYielded(s, cpu), steps).queue <==> Happened(steps, st => Saves(st, pid))
  {
    assert |s.current| == MAX_CPUS;
    hide SchedInv, CurrentYielded, EnabledRun, Run, Happened, NeverDispatched;
    YieldParks(s, cpu, pid, WaitingForEvent);
    CurrentYieldedInv(s, cpu);
    WakeOnce(CurrentYielded(s, cpu), steps, pid, WaitingForEvent, true, false);
  }

  /** The same after a preemption that gave the CPU to another. */
  lemma PreemptedComesBack(s: Sched, cpu: nat, now: nat, pid: nat, steps: seq<Step>)
    requires SchedInv(s) && cpu < MAX_CPUS && s.current[cpu] == Some(KernelThread(pid))
    requires var t := Preempted(s, KernelThread(pid), cpu, now);
             && t.current[cpu] != Some(KernelThread(pid)) && EnabledRun(t, steps)
             && NeverDispatched(t, steps, KernelThread(pid))
    requires forall k | 0 <= k < |steps| :: !Disturbs(steps[k], pid)
    ensures KernelThread(pid) in Run(Preempted(s, KernelThread(pid), cpu, now), steps).queue <==>
              Happened(steps, st => Saves(st, pid))
  {
    assert |s.current| == MAX_CPUS;
    hide SchedInv, Preempted, EnabledRun, Run, Happened, NeverDispatched;
    PreemptParks(s, cpu, now, pid, WaitingForEvent);
    PreemptedInv(s, KernelThread(pid), cpu, now);
    WakeOnce(Preempted(s, KernelThread(pid), cpu, now), steps, pid, WaitingForEvent, true, false);
  }

  // ------------------------------------------------- affinities and requests

  /** An entity that is still there has its affinity, and its process what was asked of it. */
  ghost predicate Carried(s: Sched, t: Sched, id: EntityId) {
    && (id in s.entities && id in t.entities ==> t.entities[id].affinity == s.entities[id].affinity)
    && (id.pid in s.processes && id.pid in t.processes ==>
          t.processes[id.pid].terminationRequested == s.processes[id.pid].terminationRequested)
  }

  lemma ReadyCarries(s: Sched, x: EntityId, contract: Option<nat>, now: nat, id: EntityId)
    ensures Carried(s, MadeReady(s, x, contract, now), id)
  {
  }

  lemma WokenCarries(s: Sched, pid: nat, contract: Option<nat>, now: nat, id: EntityId)
    ensures Carried(s, Woken(s, pid, contract, now), id)
  {
    hide MadeReady;
    ReadyCarries(WithProcess(s, KernelThread(pid), ProcessReady, None), KernelThread(pid), contract, now, id);
  }

  lemma SpawnCarries(s: Sched, pid: nat, now: nat, id: EntityId)
    requires pid !in s.processes && KernelThread(pid) !in s.entities
    ensures Carried(s, Spawned(s, pid, now), id)
  {
    hide MadeReady;
    var t := s.(processes := s.processes[pid := Process(ProcessReady, None, false)]);
    ReadyCarries(WithEntity(t, KernelThread(pid), NEW_ENTITY), KernelThread(pid), None, now, id);
  }

  lemma DispatchCarries(s: Sched, k: nat, cpu: nat, now: nat, id: EntityId)
    requires k < |s.queue| && cpu < |s.current|
    ensures Carried(s, Dispatched(s, k, cpu, now), id)
  {
  }

  lemma ScheduleCarries(s: Sched, cpu: nat, now: nat, id: EntityId)
    requires cpu < |s.current|
    ensures Carried(s, Scheduled(s, cpu, now), id)
  {
    hide Dispatched, PickIndex;
    if PickIndex(s, now, cpu).Some? {
      DispatchCarries(s, PickIndex(s, now, cpu).value, cpu, now, id);
    }
  }

  lemma DisplaceCarries(s: Sched, x: EntityId, cpu: nat, id: EntityId)
    requires cpu < |s.current|
    ensures var d := Displaced(s, x, cpu);
            && Carried(s, d, id) && |d.current| == |s.current|
            && (id in d.entities <==> id in s.entities) && (id.pid in d.processes <==> id.pid in s.processes)
  {
  }

  lemma PreemptCarries(s: Sched, x: EntityId, cpu: nat, now: nat, id: EntityId)
    requires cpu < |s.current|
    ensures Carried(s, Preempted(s, x, cpu, now), id)
  {
    hide Displaced, Scheduled, PickIndex;
    DisplaceCarries(s, x, cpu, id);
    ScheduleCarries(Displaced(s, x, cpu), cpu, now, id);
  }

  lemma CurrentCarries(s: Sched, cpu: nat, reason: BlockReason, id: EntityId)
    requires cpu < |s.current|
    ensures Carried(s, CurrentBlocked(s, cpu, reason), id)
  {
  }

  lemma CurrentYieldCarries(s: Sched, cpu: nat, id: EntityId)
    requires cpu < |s.current|
    ensures Carried(s, CurrentYielded(s, cpu), id)
  {
  }

  lemma SlotCarries(s: Sched, cpu: nat, pid: nat, id: EntityId)
    requires cpu < |s.current|
    ensures Carried(s, CurrentTerminated(s, cpu), id) && Carried(s, UserPopped(s, cpu), id)
    ensures Carried(s, UserCleared(s, cpu, pid), id) && Carried(s, UserRegistered(s, pid), id)
  {
  }

  lemma NamedCarries(s: Sched, x: EntityId, id: EntityId)
    ensures Carried(s, BlockedEntity(s, x), id) && Carried(s, Unregistered(s, x), id)
    ensures Carried(s, Published(s, x), id) && Carried(s, Saving(s, x), id)
  {
  }

  lemma PlacedCarries(s: Sched, x: EntityId, cpu: nat, id: EntityId)
    requires cpu < |s.current|
    ensures Carried(s, Yielded(s, cpu, x), id) && Carried(s, ForcedRunning(s, cpu, x), id)
  {
  }

  lemma StepCarries(s: Sched, st: Step, id: EntityId)
    requires Enabled(s, st) && !(st.SetAffinity? && st.id == id) && !(st.Terminate? && st.pid == id.pid)
    ensures Carried(s, Apply(s, st), id)
  {
    hide Carried, Scheduled, Preempted, UserPopped, CurrentBlocked, Saving, CurrentYielded, UserCleared,
         ForcedRunning, MadeReady, BlockedEntity, Published, Yielded, Unregistered, Spawned, Woken,
         UserRegistered, CurrentTerminated, Terminated, Bound;
    match st
    case Spawn(pid, now) => SpawnCarries(s, pid, now, id);
    case MakeReady(x, contract, now) => ReadyCarries(s, x, contract, now, id);
    case Wake(pid, contract, now) => WokenCarries(s, pid, contract, now, id);
    case WakeIo(pid, token, now) =>
      WokenCarries(s, pid, None, now, id);
      SameCarries(s, id);
    case Schedule(cpu, now) => ScheduleCarries(s, cpu, now, id);
    case Preempt(cpu, now) => PreemptCarries(s, s.current[cpu].value, cpu, now, id);
    case PopUser(cpu) => SlotCarries(s, cpu, 0, id);
    case BlockCurrent(cpu, reason) => CurrentCarries(s, cpu, reason, id);
    case YieldCurrent(cpu) => CurrentYieldCarries(s, cpu, id);
    case TerminateCurrent(cpu) => SlotCarries(s, cpu, 0, id);
    case BeginSave(cpu) => NamedCarries(s, s.current[cpu].value, id);
    case ClearUser(cpu, pid) => SlotCarries(s, cpu, pid, id);
    case RegisterUser(pid) => SlotCarries(s, 0, pid, id);
    case Block(x) => NamedCarries(s, x, id);
    case Publish(x) => NamedCarries(s, x, id);
    case Unregister(x) => NamedCarries(s, x, id);
    case SetRunning(cpu, x) => PlacedCarries(s, x, cpu, id);
    case Yield(cpu, x) => PlacedCarries(s, x, cpu, id);
    case SetAffinity(x, affinity) => BindCarries(s, x, affinity, id);
    case Terminate(pid) => EndCarries(s, pid, id);
  }

  lemma SameCarries(s: Sched, id: EntityId)
    ensures Carried(s, s, id)
  {
  }

  lemma BindCarries(s: Sched, x: EntityId, affinity: Option<nat>, id: EntityId)
    requires x != id
    ensures Carried(s, Bound(s, x, affinity), id)
  {
  }

  lemma EndCarries(s: Sched, pid: nat, id: EntityId)
    requires pid != id.pid
    ensures Carried(s, Terminated(s, pid), id)
  {
  }

  /** The affinity that the last binding of a run asked for. */
  function LastBound(steps: seq<Step>, id: EntityId, start: Option<nat>): Option<nat> {
    if steps == [] then start
    else LastBound(steps[1..], id, if steps[0].SetAffinity? && steps[0].id == id then steps[0].affinity else start)
  }

  /** The entity is registered throughout a run. */
  predicate StaysKnown(s: Sched, steps: seq<Step>, id: EntityId)
    requires EnabledRun(s, steps)
    decreases |steps|
  {
    id in s.entities && (steps == [] || StaysKnown(Apply(s, steps[0]), steps[1..], id))
  }

  lemma AffinityStep(s: Sched, st: Step, id: EntityId)
    requires Enabled(s, st) && id in s.entities && id in Apply(s, st).entities
    ensures Apply(s, st).entities[id].affinity ==
            if st.SetAffinity? && st.id == id then st.affinity else s.entities[id].affinity
  {
    if st.SetAffinity? && st.id == id {
      BindFacts(s, id, st.affinity);
    } else if st.Terminate? {
      hide IsCurrent;
    } else {
      hide Apply;
      StepCarries(s, st, id);
    }
  }

  /** Over every run, an entity's affinity is the one it was last given. */
  lemma {:induction false} AffinityIsLast(s: Sched, steps: seq<Step>, id: EntityId)
    requires EnabledRun(s, steps) && StaysKnown(s, steps, id)
    ensures id in Run(s, steps).entities
    ensures Run(s, steps).entities[id].affinity == LastBound(steps, id, s.entities[id].affinity)
    decreases |steps|
  {
    hide Apply, Enabled;
    if steps != [] {
      AffinityStep(s, steps[0], id);
      AffinityIsLast(Apply(s, steps[0]), steps[1..], id);
    }
  }

  /** Whatever the step, a CPU is handed an entity that may run there, or the one that `SetRunning` names. */
  lemma DispatchIsAllowed(s: Sched, st: Step, c: nat)
    requires SchedInv(s) && Enabled(s, st) && c < MAX_CPUS
    ensures var t := Apply(s, st);
            && c < |t.current|
            && (t.current[c].Some? && t.current[c] != s.current[c] && st != SetRunning(c, t.current[c].value) ==>
                  var id := t.current[c].value;
                  id in s.entities && (s.entities[id].affinity.None? || s.entities[id].affinity == Some(c)))
  {
    hide Scheduled, Preempted, UserPopped, ForcedRunning;
    match st
    case Schedule(cpu, now) => PickAllowed(s, cpu, now, c);
    case Preempt(cpu, now) => PreemptAllowed(s, s.current[cpu].value, cpu, now, c);
    case PopUser(cpu) => PopAllowed(s, cpu, c);
    case SetRunning(cpu, id) => ForcedHands(s, cpu, id, c);
    case _ => OthersHandNothing(s, st, c);
  }

  ghost predicate Allowed(s: Sched, t: Sched, c: nat) {
    && c < |s.current| == |t.current|
    && (t.current[c].Some? && t.current[c] != s.current[c] ==>
          var id := t.current[c].value;
          id in s.entities && (s.entities[id].affinity.None? || s.entities[id].affinity == Some(c)))
  }

  lemma PickAllowed(s: Sched, cpu: nat, now: nat, c: nat)
    requires cpu < |s.current| && c < |s.current|
    ensures Allowed(s, Scheduled(s, cpu, now), c)
  {
    hide PickIndex;
    assert PickIndex(s, now, cpu).Some? ==> Eligible(s, PickIndex(s, now, cpu).value, cpu);
  }

  lemma PopAllowed(s: Sched, cpu: nat, c: nat)
    requires cpu < |s.current| && c < |s.current|
    ensures Allowed(s, UserPopped(s, cpu), c)
  {
  }

  lemma PreemptAllowed(s: Sched, x: EntityId, cpu: nat, now: nat, c: nat)
    requires SchedInv(s) && cpu < |s.current| && c < |s.current| && s.current[cpu] == Some(x)
    ensures Allowed(s, Preempted(s, x, cpu, now), c)
  {
    var d := Displaced(s, x, cpu);
    DisplacedInv(s, x, cpu);
    PickAllowed(d, cpu, now, c);
  }

  /**
   Over every run, a CPU that picks an entity which stays registered until then is
   one that the entity's last binding allows.
   */
  lemma BindingKept(s: Sched, steps: seq<Step>, st: Step, c: nat, id: EntityId)
    requires SchedInv(s) && EnabledRun(s, steps) && StaysKnown(s, steps, id) && c < MAX_CPUS
    requires Enabled(Run(s, steps), st) && st != SetRunning(c, id) && |Run(s, steps).current| == MAX_CPUS
    requires var t := Apply(Run(s, steps), st);
             |t.current| == MAX_CPUS && t.current[c] == Some(id) && Run(s, steps).current[c] != Some(id)
    ensures var bound := LastBound(steps, id, s.entities[id].affinity); bound.None? || bound == Some(c)
  {
    hide SchedInv, Enabled, Apply;
    RunInv(s, steps);
    AffinityIsLast(s, steps, id);
    DispatchIsAllowed(Run(s, steps), st, c);
  }

  /** The process is there throughout a run. */
  predicate StaysAlive(s: Sched, steps: seq<Step>, pid: nat)
    requires EnabledRun(s, steps)
    decreases |steps|
  {
    pid in s.processes && (steps == [] || StaysAlive(Apply(s, steps[0]), steps[1..], pid))
  }

  lemma RequestStep(s: Sched, st: Step, pid: nat)
    requires Enabled(s, st) && pid in s.processes && pid in Apply(s, st).processes
    ensures Apply(s, st).processes[pid].terminationRequested <==>
              s.processes[pid].terminationRequested || st == Terminate(pid)
    ensures st == Terminate(pid) ==> IsCurrent(s, KernelThread(pid))
  {
    if !st.Terminate? {
      hide Apply;
      StepCarries(s, st, if st.SetAffinity? then Other(st.id, pid) else KernelThread(pid));
    }
  }

  /** The other of the two entities that can have a pid. */
  function Other(id: EntityId, pid: nat): EntityId {
    if id == KernelThread(pid) then UserProcess(pid) else KernelThread(pid)
  }

  /** Over every run that a thread survives, it is asked to terminate exactly if some step of the run asked it. */
  lemma {:induction false} RequestStands(s: Sched, steps: seq<Step>, pid: nat)
    requires EnabledRun(s, steps) && StaysAlive(s, steps, pid)
    ensures pid in Run(s, steps).processes
    ensures Run(s, steps).processes[pid].terminationRequested <==>
              s.processes[pid].terminationRequested || Happened(steps, st => st == Terminate(pid))
    decreases |steps|
  {
    hide Apply, Enabled;
    if steps != [] {
      RequestStep(s, steps[0], pid);
      RequestStands(Apply(s, steps[0]), steps[1..], pid);
      HappenedHead(steps, st => st == Terminate(pid));
    }
  }
}
