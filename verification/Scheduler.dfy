/** The bounded, duplicate-free ready queue. */
module RunQueues {
  import opened Base
  import opened SchedulerSpec

  class RunQueue {
    var queue: seq<EntityId>

    constructor ()
      ensures queue == []
    {
      queue := [];
    }

    method IndexOf(id: EntityId) returns (r: Option<nat>)
      ensures r.None? <==> id !in queue
      ensures r.Some? ==> r.value < |queue| && queue[r.value] == id && id !in queue[..r.value]
    {
      var i := 0;
      while i < |queue|
        invariant 0 <= i <= |queue| && id !in queue[..i]
      {
        if queue[i] == id {
          return Some(i);
        }
        i := i + 1;
      }
      return None;
    }

    method Enqueue(id: EntityId) returns (r: Result<bool, ()>)
      modifies this
      ensures r.Err? <==> id !in old(queue) && MAX_ENTITIES <= |old(queue)|
      ensures r.Err? ==> queue == old(queue)
      ensures r.Ok? ==> queue == Enqueued(old(queue), id) && r.value == (id !in old(queue))
    {
      var at := IndexOf(id);
      if at.Some? {
        return Ok(false);
      }
      if |queue| >= MAX_ENTITIES {
        return Err(());
      }
      queue := queue + [id];
      return Ok(true);
    }

    method Remove(id: EntityId) returns (found: bool)
      modifies this
      ensures queue == Removed(old(queue), id) && found == (id in old(queue))
    {
      var at := IndexOf(id);
      if at.None? {
        RemovedAbsent(queue, id);
        return false;
      }
      RemovedIs(queue, id, at.value);
      queue := queue[..at.value] + queue[at.value + 1..];
      return true;
    }

    method RemoveAt(index: nat) returns (r: Option<EntityId>)
      modifies this
      ensures index < |old(queue)| ==> r == Some(old(queue)[index]) && queue == RemovedAt(old(queue), index)
      ensures |old(queue)| <= index ==> r.None? && queue == old(queue)
    {
      if index >= |queue| {
        return None;
      }
      r := Some(queue[index]);
      queue := queue[..index] + queue[index + 1..];
    }
  }
}

/** The scheduler object: every method is one transition of the specification. */
module Scheduling {
  import opened Base
  import opened SchedulerSpec
  import opened SchedulerSafety
  import opened SchedulerRuns
  import opened SchedulerEffects
  import opened RunQueues

  class Scheduler {
    var processes: map<nat, Process>
    var entities: map<EntityId, Entity>
    const runQueue: RunQueue
    const current: array<Option<EntityId>>
    var idlePid: Option<nat>
    var latencyMisses: nat

    ghost function View(): Sched
      reads this, runQueue, current
    {
      Sched(processes, entities, runQueue.queue, current[..], idlePid, latencyMisses)
    }

    ghost predicate Valid()
      reads this, runQueue, current
    {
      SchedInv(View())
    }

    /** A scheduler with its idle process, nothing else. */
    constructor (idle: nat)
      ensures View() == Initial(idle) && Valid() && fresh(runQueue) && fresh(current)
    {
      processes := map[idle := Process(ProcessReady, None, false)];
      entities := map[KernelThread(idle) := NEW_ENTITY];
      runQueue := new RunQueue();
      current := new Option<EntityId>[MAX_CPUS](_ => None);
      idlePid := Some(idle);
      latencyMisses := 0;
      new;
      assert current[..] == Initial(idle).current;
      InitialInv(idle);
    }

    // ------------------------------------------------------------------- fields

    method SetProcess(id: EntityId, state: ProcessState, reason: Option<BlockReason>)
      modifies this`processes
      ensures View() == WithProcess(old(View()), id, state, reason)
    {
      if id.KernelThread? && id.pid in processes {
        processes := processes[id.pid := processes[id.pid].(state := state, reason := reason)];
      }
    }

    method SetProcessState(id: EntityId, state: ProcessState)
      modifies this`processes
      ensures View() == MarkProcess(old(View()), id, state)
    {
      if id.KernelThread? && id.pid in processes {
        processes := processes[id.pid := processes[id.pid].(state := state)];
      }
    }

    method SetEntity(id: EntityId, e: Entity)
      modifies this`entities
      ensures View() == WithEntity(old(View()), id, e)
    {
      entities := entities[id := e];
    }

    method SetCurrentSlot(cpu: nat, slot: Option<EntityId>)
      requires cpu < current.Length
      modifies current
      ensures View() == old(View()).(current := old(current[..])[cpu := slot])
    {
      current[cpu] := slot;
    }

    /** Appends a registered entity; there is always room for one. */
    method EnqueueEntity(id: EntityId) returns (added: bool)
      requires NoDuplicates(runQueue.queue) && |entities| <= MAX_ENTITIES && id in entities
      requires forall other | other in runQueue.queue :: other in entities
      modifies runQueue
      ensures View() == old(View()).(queue := Enqueued(old(runQueue.queue), id))
      ensures added == (id !in old(runQueue.queue))
    {
      if id !in runQueue.queue {
        EnqueueFits(View(), id);
      }
      var r := runQueue.Enqueue(id);
      return r.value;
    }

    method CurrentContains(id: EntityId) returns (r: bool)
      ensures r == IsCurrent(View(), id)
    {
      var i := 0;
      while i < current.Length
        invariant 0 <= i <= current.Length && Some(id) !in current[..i]
      {
        if current[i] == Some(id) {
          assert current[..][i] == Some(id);
          return true;
        }
        i := i + 1;
      }
      assert current[..i] == current[..];
      return false;
    }

    method ClearSlots(id: EntityId)
      modifies current
      ensures View() == old(View()).(current := ClearCurrent(old(current[..]), id))
    {
      ghost var before := current[..];
      var i := 0;
      while i < current.Length
        invariant 0 <= i <= current.Length
        invariant forall k | 0 <= k < i :: current[k] == if before[k] == Some(id) then None else before[k]
        invariant forall k | i <= k < current.Length :: current[k] == before[k]
      {
        if current[i] == Some(id) {
          current[i] := None;
        }
        i := i + 1;
      }
      assert current[..] == ClearCurrent(before, id);
    }

    // -------------------------------------------------------------- transitions

    /** Makes an entity runnable; it is queued unless its context is still being saved. */
    method MakeReady(id: EntityId, contract: Option<nat>, now: nat) returns (r: Result<bool, ()>)
      requires Valid() && NotIdle(View(), id)
      modifies this`entities, this`processes, runQueue
      ensures Valid() && View() == MadeReady(old(View()), id, contract, now)
      ensures r.Err? <==> id !in old(entities)
      ensures r.Ok? ==> r.value == (id !in old(runQueue.queue) && id in runQueue.queue)
      ensures id in old(entities) && !IsCurrent(old(View()), id) ==>
                id in entities && entities[id].state == Ready && (id in runQueue.queue <==> entities[id].published)
      ensures id in old(entities) && old(entities)[id].state == Blocked ==>
                && entities[id].readySince == now && entities[id].contract == contract
                && entities[id].mustRunBy == (if contract.None? then None else Some(SaturatingAdd(now, contract.value)))
    {
      hide SchedInv, Sooner;
      ReadyMeans(View(), id, contract, now);
      MadeReadyInv(View(), id, contract, now);
      KnownQueue(View());
      if id !in entities {
        return Err(());
      }
      var running := CurrentContains(id);
      if entities[id].state == Running && running {
        return Ok(false);
      }
      BecomeReady(id, contract, now);
      if !entities[id].published {
        return Ok(false);
      }
      var added := EnqueueEntity(id);
      return Ok(added);
    }

    method BecomeReady(id: EntityId, contract: Option<nat>, now: nat)
      requires id in entities
      modifies this`entities, this`processes
      ensures var e := old(entities)[id];
              View() == if e.state == Ready then WithEntity(old(View()), id, Sooner(e, contract, now))
                        else WithEntity(WithProcess(old(View()), id, ProcessReady, None), id,
                                        e.(state := Ready, readySince := now, contract := contract,
                                           mustRunBy := if contract.Some? then Some(SaturatingAdd(now, contract.value))
                                                        else None))
      ensures id in entities && entities[id].published == old(entities)[id].published && |entities| == |old(entities)|
      ensures entities.Keys == old(entities).Keys
    {
      var e := entities[id];
      if e.state == Ready {
        if contract.Some? {
          e := Sooner(e, contract, now);
        }
      } else {
        SetProcess(id, ProcessReady, None);
        e := e.(state := Ready, readySince := now, contract := contract,
                mustRunBy := if contract.Some? then Some(SaturatingAdd(now, contract.value)) else None);
      }
      SameKeys(entities, id, e);
      SetEntity(id, e);
    }

    method BlockEntity(id: EntityId)
      requires Valid()
      modifies this`entities, runQueue, current
      ensures Valid() && View() == BlockedEntity(old(View()), id)
      ensures id !in runQueue.queue && !IsCurrent(View(), id)
      ensures id in old(entities) ==> id in entities && entities[id].state == Blocked && entities[id].mustRunBy.None?
    {
      BlockFacts(View(), id);
      BlockedInv(View(), id);
      var _ := runQueue.Remove(id);
      if id in entities {
        SetEntity(id, entities[id].(state := Blocked, mustRunBy := None));
      }
      ClearSlots(id);
    }

    method UnregisterUser(pid: nat)
      requires Valid()
      modifies this`entities, runQueue, current
      ensures Valid() && View() == Unregistered(old(View()), UserProcess(pid))
      ensures UserProcess(pid) !in entities && UserProcess(pid) !in runQueue.queue
      ensures !IsCurrent(View(), UserProcess(pid))
    {
      GoneFacts(View(), UserProcess(pid));
      UserUnregisteredInv(View(), UserProcess(pid));
      DropEntity(UserProcess(pid));
    }

    method DropEntity(id: EntityId)
      modifies this`entities, runQueue, current
      ensures View() == Unregistered(old(View()), id)
    {
      var _ := runQueue.Remove(id);
      ClearSlots(id);
      entities := entities - {id};
    }

    /** The save of a context begins. Until it ends the entity is not dispatchable, and it must not be queued. */
    method MarkContextSaving(id: EntityId)
      requires Valid()
      modifies this`entities
      ensures View() == Saving(old(View()), id) && (Valid() <==> id !in runQueue.queue)
      ensures !Dispatchable(View(), id)
      ensures forall other | other != id :: Dispatchable(View(), other) <==> Dispatchable(old(View()), other)
    {
      SavingInv(View(), id);
      BeginSaving(id);
    }

    method BeginSaving(id: EntityId)
      modifies this`entities
      ensures View() == Saving(old(View()), id)
    {
      if id in entities {
        SetEntity(id, entities[id].(published := false));
      }
    }

    /** The save is complete: a thread woken meanwhile is queued now. */
    method PublishContext(id: EntityId)
      requires Valid()
      modifies this`entities, runQueue
      ensures Valid() && View() == Published(old(View()), id)
      ensures id in old(entities) ==>
                id in entities && entities[id].published && (id in runQueue.queue <==> entities[id].state == Ready)
    {
      if id in entities {
        PublishFacts(View(), id);
      }
      PublishedInv(View(), id);
      KnownQueue(View());
      if id in entities {
        var e := entities[id];
        SameKeys(entities, id, e.(published := true));
        SetEntity(id, e.(published := true));
        if e.state == Ready {
          var _ := EnqueueEntity(id);
        }
      }
    }

    /** Earliest overdue eligible entry, else the first eligible one. */
    method PickReadyIndex(now: nat, cpu: nat) returns (r: Option<nat>)
      requires Valid()
      ensures r == PickIndex(View(), now, cpu)
      ensures r.None? <==> forall k: nat :: !Eligible(View(), k, cpu)
      ensures r.Some? && !NoneOverdue(View(), now, cpu) ==> IsEarliestDue(View(), now, cpu, r.value)
      ensures r.Some? && NoneOverdue(View(), now, cpu) ==> IsFirstEligible(View(), cpu, r.value)
    {
      PickIs(View(), now, cpu);
      KnownQueue(View());
      var due: Option<nat> := None;
      var i := 0;
      while i < |runQueue.queue|
        invariant 0 <= i <= |runQueue.queue| && due == EarliestDue(View(), now, cpu, i)
      {
        var e := entities[runQueue.queue[i]];
        if (e.affinity.None? || e.affinity.value == cpu) && e.mustRunBy.Some? && e.mustRunBy.value <= now {
          if due.None? || e.mustRunBy.value < entities[runQueue.queue[due.value]].mustRunBy.value {
            due := Some(i);
          }
        }
        i := i + 1;
      }
      if due.Some? {
        return due;
      }
      r := FirstEligibleIndex(cpu);
    }

    method FirstEligibleIndex(cpu: nat) returns (r: Option<nat>)
      requires forall id | id in runQueue.queue :: id in entities
      ensures r == FirstEligible(View(), cpu, 0)
    {
      var i := 0;
      while i < |runQueue.queue|
        invariant 0 <= i <= |runQueue.queue| && FirstEligible(View(), cpu, i) == FirstEligible(View(), cpu, 0)
      {
        var e := entities[runQueue.queue[i]];
        if e.affinity.None? || e.affinity.value == cpu {
          return Some(i);
        }
        i := i + 1;
      }
      return None;
    }

    method ScheduleEntity(cpu: nat, now: nat) returns (r: Option<EntityId>)
      requires Valid() && cpu < current.Length && current[cpu].None?
      modifies this`entities, this`processes, this`latencyMisses, runQueue, current
      ensures Valid() && View() == Scheduled(old(View()), cpu, now)
      ensures r == current[cpu]
      ensures r.Some? ==> Dispatchable(old(View()), r.value)
      ensures r.Some? ==> r.value !in runQueue.queue && r.value in entities && entities[r.value].state == Running
                          && entities[r.value].mustRunBy.None? && entities[r.value].contract.None?
    {
      ScheduledInv(View(), cpu, now);
      ScheduledMeans(View(), cpu, now);
      ScheduledSaved(View(), cpu, now, cpu);
      var k := PickReadyIndex(now, cpu);
      if k.None? {
        return None;
      }
      KnownQueue(View());
      r := Dispatch(k.value, cpu, now);
    }

    method Dispatch(k: nat, cpu: nat, now: nat) returns (r: Option<EntityId>)
      requires k < |runQueue.queue| && cpu < current.Length && runQueue.queue[k] in entities
      modifies this`entities, this`processes, this`latencyMisses, runQueue, current
      ensures View() == Dispatched(old(View()), k, cpu, now) && r == Some(old(runQueue.queue)[k])
    {
      r := runQueue.RemoveAt(k);
      var id := r.value;
      var e := entities[id];
      if e.mustRunBy.Some? && e.mustRunBy.value < now {
        latencyMisses := SaturatingAdd(latencyMisses, 1);
      }
      SetEntity(id, e.(state := Running, mustRunBy := None, contract := None));
      SetProcessState(id, ProcessRunning);
      SetCurrentSlot(cpu, Some(id));
    }

    /** The interrupted entity gives way, or carries on if nothing else can run. */
    method PreemptAndPick(cpu: nat, now: nat) returns (r: Option<EntityId>)
      requires Valid() && cpu < current.Length && current[cpu].Some?
      modifies this`entities, this`processes, this`latencyMisses, runQueue, current
      ensures Valid() && View() == Preempted(old(View()), old(current[cpu]).value, cpu, now)
      ensures r.Some? && r == current[cpu]
      ensures r != old(current[cpu]) ==>
                Dispatchable(old(View()), r.value) && !Dispatchable(View(), old(current[cpu]).value)
      ensures var was := old(current[cpu]).value;
              r != Some(was) && was.KernelThread? ==> Parked(View(), was.pid, WaitingForEvent, true, false)
    {
      if current[cpu].value.KernelThread? {
        PreemptParks(View(), cpu, now, current[cpu].value.pid, WaitingForEvent);
      }
      ghost var s := View();
      var id := current[cpu].value;
      PreemptedSaved(s, id, cpu, now, cpu);
      PreemptedUndispatchable(s, id, cpu, now);
      PreemptedInv(s, id, cpu, now);
      DisplacedInv(s, id, cpu);
      Displace(id, cpu);
      assert View() == Displaced(s, id, cpu);
      var next := ScheduleEntity(cpu, now);
      if next.Some? {
        return next;
      }
      SetProcessState(id, ProcessRunning);
      SetCurrentSlot(cpu, Some(id));
      SetEntity(id, entities[id].(state := Running, published := true));
      return Some(id);
    }

    method Displace(id: EntityId, cpu: nat)
      requires id in entities && cpu < current.Length && current[cpu] == Some(id)
      modifies this`entities, this`processes, current
      ensures View() == Displaced(old(View()), id, cpu)
    {
      var e := entities[id];
      SetProcessState(id, ProcessReady);
      SetEntity(id, e.(runtimeTicks := SaturatingAdd(e.runtimeTicks, 1), published := false, state := Ready,
          mustRunBy := None));
      SetCurrentSlot(cpu, None);
    }

    method PopNextUser(cpu: nat) returns (r: Option<nat>)
      requires Valid() && cpu < current.Length && current[cpu].None?
      modifies this`entities, runQueue, current
      ensures Valid() && View() == UserPopped(old(View()), cpu)
      ensures r.Some? ==> current[cpu] == Some(UserProcess(r.value)) && Dispatchable(old(View()), UserProcess(r.value))
      ensures r.None? <==> forall k: nat | Eligible(old(View()), k, cpu) :: !old(runQueue.queue)[k].UserProcess?
    {
      ghost var s := View();
      FirstUserIs(s, cpu, 0);
      UserPoppedInv(s, cpu);
      PoppedSaved(s, cpu, cpu);
      KnownQueue(s);
      var k := FirstUserIndex(cpu);
      if k.None? {
        return None;
      }
      var next := runQueue.RemoveAt(k.value);
      var id := next.value;
      SetEntity(id, entities[id].(state := Running, mustRunBy := None));
      SetCurrentSlot(cpu, Some(id));
      return Some(id.pid);
    }

    method FirstUserIndex(cpu: nat) returns (r: Option<nat>)
      requires forall id | id in runQueue.queue :: id in entities
      ensures r == FirstUser(View(), cpu, 0)
    {
      var i := 0;
      while i < |runQueue.queue|
        invariant 0 <= i <= |runQueue.queue| && FirstUser(View(), cpu, i) == FirstUser(View(), cpu, 0)
      {
        var e := entities[runQueue.queue[i]];
        if runQueue.queue[i].UserProcess? && (e.affinity.None? || e.affinity.value == cpu) {
          return Some(i);
        }
        i := i + 1;
      }
      return None;
    }

    method ClearCurrentUser(cpu: nat, pid: nat)
      requires Valid() && cpu < current.Length
      modifies this`entities, current
      ensures Valid() && View() == UserCleared(old(View()), cpu, pid)
      ensures old(current[cpu]) != Some(UserProcess(pid)) ==> View() == old(View())
      ensures old(current[cpu]) == Some(UserProcess(pid)) ==>
                current[cpu].None? && UserProcess(pid) in entities && entities[UserProcess(pid)].state == Blocked
    {
      if current[cpu] == Some(UserProcess(pid)) {
        ClearFacts(View(), cpu, pid);
      }
      UserClearedInv(View(), cpu, pid);
      var id := UserProcess(pid);
      if current[cpu] == Some(id) {
        SetCurrentSlot(cpu, None);
        if id in entities && entities[id].state == Running {
          SetEntity(id, entities[id].(state := Blocked));
        }
      }
    }

    /** A CPU is made to run a user entity; the context it gets is saved exactly if the entity was new or published. */
    method SetRunning(cpu: nat, id: EntityId)
      requires Valid() && Enabled(View(), Step.SetRunning(cpu, id))
      modifies this`entities, runQueue, current
      ensures Valid() && View() == ForcedRunning(old(View()), cpu, id)
      ensures current[cpu] == Some(id) && id !in runQueue.queue && id in entities && entities[id].state == Running
      ensures entities[id].published <==> id !in old(entities) || old(entities)[id].published
      ensures forall c | 0 <= c < current.Length && c != cpu :: current[c] == old(current[c])
      ensures var was := old(current[cpu]);
              was.Some? && was.value != id && was.value in old(entities) ==>
                was.value in entities && entities[was.value].state == Blocked
    {
      hide SchedInv;
      ghost var s := View();
      ForcedFacts(s, cpu, id);
      ForcedInv(View(), cpu, id);
      var previous := current[cpu];
      if previous.Some? && previous.value != id && previous.value in entities
          && entities[previous.value].state == Running {
        SetEntity(previous.value, entities[previous.value].(state := Blocked));
      }
      var e := if id in entities then entities[id] else NEW_ENTITY;
      var _ := runQueue.Remove(id);
      SetEntity(id, e.(state := Running, mustRunBy := None));
      SetCurrentSlot(cpu, Some(id));
    }

    method YieldEntity(cpu: nat, id: EntityId)
      requires Valid() && Enabled(View(), Step.Yield(cpu, id))
      modifies this`entities, runQueue, current
      ensures Valid() && View() == Yielded(old(View()), cpu, id)
      ensures id in runQueue.queue && !IsCurrent(View(), id)
      ensures id in entities && entities[id].state == Ready && entities[id].published && entities[id].mustRunBy.None?
    {
      YieldFacts(View(), cpu, id);
      YieldedInv(View(), cpu, id);
      KnownQueue(View());
      var e := entities[id].(state := Ready, mustRunBy := None, published := true);
      SameKeys(entities, id, e);
      SetEntity(id, e);
      if current[cpu] == Some(id) {
        SetCurrentSlot(cpu, None);
      }
      var _ := EnqueueEntity(id);
    }

    method YieldCurrent(cpu: nat)
      requires Valid() && cpu < current.Length
      modifies this`entities, this`processes, current
      ensures Valid() && View() == CurrentYielded(old(View()), cpu)
      ensures old(current[cpu]).Some? && old(current[cpu]).value.KernelThread? ==>
                && current[cpu].None? && !IsCurrent(View(), old(current[cpu]).value)
                && Parked(View(), old(current[cpu]).value.pid, WaitingForEvent, true, false)
    {
      CurrentYieldedInv(View(), cpu);
      if current[cpu].Some? && current[cpu].value.KernelThread? {
        YieldParks(View(), cpu, current[cpu].value.pid, WaitingForEvent);
      }
      if current[cpu].Some? && current[cpu].value.KernelThread? {
        var id := current[cpu].value;
        BeginSaving(id);
        if id.pid in processes && processes[id.pid].state == ProcessRunning {
          SetProcessState(id, ProcessReady);
          if idlePid != Some(id.pid) && id in entities {
            SetEntity(id, entities[id].(state := Ready));
          }
        }
        SetCurrentSlot(cpu, None);
      }
    }

    /** Parks the current thread; its context is published only when the switch is done. */
    method BlockCurrent(cpu: nat, reason: BlockReason)
      requires Valid() && cpu < current.Length
      modifies this`entities, this`processes, runQueue, current
      ensures Valid() && View() == CurrentBlocked(old(View()), cpu, reason)
      ensures old(current[cpu]).Some? && old(current[cpu]).value.KernelThread? ==>
                Parked(View(), old(current[cpu]).value.pid, reason, false, false)
    {
      ghost var s := View();
      CurrentBlockedInv(s, cpu, reason);
      if current[cpu].Some? && current[cpu].value.KernelThread? {
        var id := current[cpu].value;
        BlockParks(s, cpu, id.pid, reason);
        BeginSaving(id);
        SetProcess(id, ProcessBlocked, Some(reason));
        var _ := runQueue.Remove(id);
        if id in entities {
          SetEntity(id, entities[id].(state := Blocked, mustRunBy := None));
        }
        ClearSlots(id);
      }
    }

    method WakeWithContract(pid: nat, contract: Option<nat>, now: nat)
      requires Valid()
      modifies this`entities, this`processes, runQueue
      ensures Valid() && View() == Woken(old(View()), pid, contract, now)
      ensures !(pid in old(processes) && old(processes)[pid].state == ProcessBlocked) ==> View() == old(View())
      ensures pid in old(processes) && old(processes)[pid].state == ProcessBlocked ==>
                && pid in processes && processes[pid].state == ProcessReady
                && KernelThread(pid) in entities && entities[KernelThread(pid)].state == Ready
                && (KernelThread(pid) in runQueue.queue <==> entities[KernelThread(pid)].published)
    {
      if pid in processes && processes[pid].state == ProcessBlocked {
        WakeFacts(View(), pid, contract, now);
      }
      if pid in processes && processes[pid].state == ProcessBlocked {
        var id := KernelThread(pid);
        BlockedIsKnown(View(), pid);
        SetProcess(id, ProcessReady, None);
        var r := MakeReady(id, contract, now);
      }
    }

    /** False while the completion is early, so that its record is kept for another try. */
    method WakeBlockIo(pid: nat, token: nat, now: nat) returns (accepted: bool)
      requires Valid()
      modifies this`entities, this`processes, runQueue
      ensures Valid() && View() == IoWoken(old(View()), pid, token, now)
      ensures accepted == AcceptsIo(old(View()), pid)
      ensures AwaitsIo(old(View()), pid, token) ==> accepted
    {
      if pid !in processes {
        return true;
      }
      var p := processes[pid];
      if p.state == ProcessBlocked && p.reason == Some(WaitingForBlockIo(token)) {
        WakeWithContract(pid, None, now);
        return true;
      }
      return p.state == ProcessBlocked && p.reason.Some? && p.reason.value.WaitingForBlockIo?;
    }

    /** Ends a thread that is off every CPU, or asks the CPU that runs it to. */
    method Terminate(pid: nat) returns (deferred: bool)
      requires Valid() && idlePid != Some(pid)
      modifies this`entities, this`processes, runQueue, current
      ensures Valid() && View() == Terminated(old(View()), pid)
      ensures deferred == (IsCurrent(old(View()), KernelThread(pid)) && pid in old(processes))
      ensures !deferred ==> pid !in processes && KernelThread(pid) !in entities && KernelThread(pid) !in runQueue.queue
      ensures deferred ==> pid in processes && processes[pid].terminationRequested && entities == old(entities)
    {
      TerminatedInv(View(), pid);
      var id := KernelThread(pid);
      var running := CurrentContains(id);
      if running && pid in processes {
        processes := processes[pid := processes[pid].(terminationRequested := true)];
        return true;
      }
      var _ := runQueue.Remove(id);
      processes := processes - {pid};
      DropEntity(id);
      GoneIsUnqueued(View(), id);
      return false;
    }

    method TerminateCurrent(cpu: nat)
      requires Valid() && cpu < current.Length && current[cpu].Some? && current[cpu].value.KernelThread?
      modifies this`entities, this`processes, runQueue, current
      ensures Valid() && View() == CurrentTerminated(old(View()), cpu)
      ensures var id := old(current[cpu]).value;
              current[cpu].None? && id.pid !in processes && id !in entities && id !in runQueue.queue
    {
      ExitFacts(View(), cpu, current[cpu].value.pid);
      CurrentTerminatedInv(View(), cpu);
      var id := current[cpu].value;
      SetCurrentSlot(cpu, None);
      processes := processes - {id.pid};
      DropEntity(id);
    }

    method Spawn(pid: nat, now: nat)
      requires Valid() && Enabled(View(), Step.Spawn(pid, now))
      modifies this`entities, this`processes, runQueue
      ensures Valid() && View() == Spawned(old(View()), pid, now)
      ensures runQueue.queue == old(runQueue.queue) + [KernelThread(pid)]
      ensures processes == old(processes)[pid := Process(ProcessReady, None, false)]
    {
      SpawnedInv(View(), pid, now);
      SpawnQueues(View(), pid, now);
      SpawnFacts(View(), pid, now);
      processes := processes[pid := Process(ProcessReady, None, false)];
      SetEntity(KernelThread(pid), NEW_ENTITY);
      var r := MakeReady(KernelThread(pid), None, now);
    }

    method RegisterUser(pid: nat)
      requires Valid() && Room(View(), UserProcess(pid))
      modifies this`entities
      ensures Valid() && View() == UserRegistered(old(View()), pid)
      ensures UserProcess(pid) in entities
      ensures UserProcess(pid) !in old(entities) ==>
                entities[UserProcess(pid)].state == Blocked && entities[UserProcess(pid)].published
    {
      UserRegisteredInv(View(), pid);
      if UserProcess(pid) !in entities {
        SetEntity(UserProcess(pid), NEW_ENTITY);
      }
    }

    method SetCpuAffinity(id: EntityId, cpu: Option<nat>, online: nat) returns (ok: bool)
      requires Valid()
      modifies this`entities
      ensures Valid() && ok == (id in old(entities) && (cpu.Some? ==> cpu.value < online))
      ensures View() == if ok then Bound(old(View()), id, cpu) else old(View())
      ensures ok ==> id in entities && entities[id].affinity == cpu && entities - {id} == old(entities) - {id}
    {
      if (cpu.Some? && online <= cpu.value) || id !in entities {
        return false;
      }
      BoundInv(View(), id, cpu);
      SetEntity(id, entities[id].(affinity := cpu));
      return true;
    }
  }

  lemma ReadyMeans(s: Sched, id: EntityId, contract: Option<nat>, now: nat)
    requires SchedInv(s)
    ensures var t := MadeReady(s, id, contract, now);
            && (id in s.entities && !IsCurrent(s, id) ==>
                  id in t.entities && t.entities[id].state == Ready && (id in t.queue <==> t.entities[id].published))
            && (id in s.entities && s.entities[id].state == Blocked ==>
                  && id in t.entities && t.entities[id].readySince == now && t.entities[id].contract == contract
                  && t.entities[id].mustRunBy ==
                     (if contract.None? then None else Some(SaturatingAdd(now, contract.value))))
  {
    assert EntityOk(s, id);
    if id in s.entities && !IsCurrent(s, id) {
      ReadyFacts(s, id, contract, now);
    }
  }

  lemma ScheduledMeans(s: Sched, cpu: nat, now: nat)
    requires SchedInv(s) && cpu < |s.current| && s.current[cpu].None?
    ensures var t := Scheduled(s, cpu, now);
            && |t.current| == |s.current|
            && (t.current[cpu].Some? ==>
                  var id := t.current[cpu].value;
                  && id !in t.queue && id in t.entities && t.entities[id].state == Running
                  && t.entities[id].mustRunBy.None? && t.entities[id].contract.None?)
  {
    var k := PickIndex(s, now, cpu);
    if k.Some? {
      DispatchFacts(s, k.value, cpu, now);
    }
  }

  lemma KnownQueue(s: Sched)
    requires SchedInv(s)
    ensures NoDuplicates(s.queue) && |s.entities| <= MAX_ENTITIES && forall id | id in s.queue :: id in s.entities
  {
    forall id | id in s.queue
      ensures id in s.entities
    {
      assert EntityOk(s, id);
    }
  }

  lemma SameKeys(m: map<EntityId, Entity>, id: EntityId, e: Entity)
    requires id in m
    ensures |m[id := e]| == |m|
  {
    KeysCard(m, id, e);
  }

  /** A blocked process is a registered thread that is neither idle nor current. */
  lemma BlockedIsKnown(s: Sched, pid: nat)
    requires SchedInv(s) && pid in s.processes && s.processes[pid].state == ProcessBlocked
    ensures KernelThread(pid) in s.entities && NotIdle(s, KernelThread(pid))
    ensures SchedInv(WithProcess(s, KernelThread(pid), ProcessReady, None))
  {
    var id := KernelThread(pid);
    assert EntityOk(s, id) && ProcessOk(s, pid);
    OneChangedInv(s, WithProcess(s, id, ProcessReady, None), id);
  }

  lemma GoneIsUnqueued(s: Sched, id: EntityId)
    requires SchedInv(s) && id !in s.entities
    ensures id !in s.queue
  {
    assert EntityOk(s, id);
  }

  lemma SpawnQueues(s: Sched, pid: nat, now: nat)
    requires SchedInv(s) && Enabled(s, Step.Spawn(pid, now))
    ensures KernelThread(pid) in Spawned(s, pid, now).queue
    ensures SchedInv(WithEntity(s.(processes := s.processes[pid := Process(ProcessReady, None, false)]),
                                KernelThread(pid), NEW_ENTITY))
  {
    var id := KernelThread(pid);
    assert EntityOk(s, id);
    KeysCard(s.entities, id, NEW_ENTITY);
    var t := s.(processes := s.processes[pid := Process(ProcessReady, None, false)]);
    OneChangedInv(s, WithEntity(t, id, NEW_ENTITY), id);
  }

  lemma PreemptedUndispatchable(s: Sched, id: EntityId, cpu: nat, now: nat)
    requires SchedInv(s) && cpu < |s.current| && s.current[cpu] == Some(id)
    ensures var t := Preempted(s, id, cpu, now);
            cpu < |t.current| && t.current[cpu].Some? && (t.current[cpu] != Some(id) ==> !Dispatchable(t, id))
  {
    IsCurrentAt(s, cpu);
    CurrentNotQueued(s, id);
  }

  lemma ForcedFacts(s: Sched, cpu: nat, id: EntityId)
    requires SchedInv(s) && Enabled(s, Step.SetRunning(cpu, id))
    ensures id !in ForcedRunning(s, cpu, id).queue
    ensures var was := s.current[cpu];
            was.Some? ==> was.value in s.entities && s.entities[was.value].state == Running
  {
    RemovedMembers(s.queue, id, id);
    if s.current[cpu].Some? {
      IsCurrentAt(s, cpu);
      assert EntityOk(s, s.current[cpu].value);
    }
  }
}
