/** Safety of the scheduler over every interleaving of CPU steps. */
module SchedulerSafety {
  import opened Base
  import opened SchedulerSpec

  // ------------------------------------------------------------------ invariant

  /** Ready to run and marked published. */
  predicate Dispatchable(s: Sched, id: EntityId) {
    id in s.entities && s.entities[id].state == Ready && s.entities[id].published
  }

  /** Queued exactly when dispatchable, current exactly when running. */
  ghost predicate EntityOk(s: Sched, id: EntityId) {
    && (id in s.queue <==> Dispatchable(s, id))
    && (IsCurrent(s, id) <==> id in s.entities && s.entities[id].state == Running)
  }

  /** Kernel threads are the processes, and a current one is marked running. */
  ghost predicate ProcessOk(s: Sched, pid: nat) {
    && (pid in s.processes <==> KernelThread(pid) in s.entities)
    && (pid in s.processes && IsCurrent(s, KernelThread(pid)) ==> s.processes[pid].state == ProcessRunning)
  }

  /** The idle process is never scheduled. */
  ghost predicate IdleOk(s: Sched) {
    s.idle.Some? ==>
      && s.idle.value in s.processes && s.processes[s.idle.value].state == ProcessReady
      && KernelThread(s.idle.value) in s.entities && s.entities[KernelThread(s.idle.value)].state == Blocked
  }

  /** No entity is current on two CPUs. */
  predicate OneCpuEach(current: seq<Option<EntityId>>) {
    forall c, d | 0 <= c < d < |current| :: current[c].Some? ==> current[c] != current[d]
  }

  ghost predicate SchedInv(s: Sched) {
    && |s.current| == MAX_CPUS && |s.entities| <= MAX_ENTITIES
    && NoDuplicates(s.queue) && OneCpuEach(s.current)
    && (forall id :: EntityOk(s, id)) && (forall pid :: ProcessOk(s, pid)) && IdleOk(s)
  }

  // ------------------------------------------------------------------ capacity

  lemma {:induction false} QueueCard(q: seq<EntityId>, ids: set<EntityId>)
    requires NoDuplicates(q) && forall id | id in q :: id in ids
    ensures |q| <= |ids|
  {
    if q != [] {
      var n := |q| - 1;
      forall id | id in q[..n]
        ensures id in ids - {q[n]}
      {
      }
      QueueCard(q[..n], ids - {q[n]});
    }
  }

  /** With at most 256 entities registered the queue always has room. */
  lemma EnqueueFits(s: Sched, id: EntityId)
    requires NoDuplicates(s.queue) && |s.entities| <= MAX_ENTITIES && id in s.entities && id !in s.queue
    requires forall other | other in s.queue :: other in s.entities
    ensures |s.queue| < MAX_ENTITIES
  {
    QueueCard(s.queue + [id], s.entities.Keys);
  }

  // ------------------------------------------------------------- current slots

  lemma ClearedCurrent(current: seq<Option<EntityId>>, id: EntityId, other: EntityId)
    requires OneCpuEach(current)
    ensures OneCpuEach(ClearCurrent(current, id))
    ensures Some(other) in ClearCurrent(current, id) <==> Some(other) in current && other != id
  {
    var r := ClearCurrent(current, id);
    if Some(other) in current && other != id {
      var c :| 0 <= c < |current| && current[c] == Some(other);
      assert r[c] == Some(other);
    }
  }

  lemma SetCurrent(current: seq<Option<EntityId>>, cpu: nat, id: EntityId, other: EntityId)
    requires OneCpuEach(current) && cpu < |current| && (Some(id) in current ==> current[cpu] == Some(id))
    ensures OneCpuEach(current[cpu := Some(id)])
    ensures Some(other) in current[cpu := Some(id)] <==>
              other == id || (Some(other) in current && current[cpu] != Some(other))
  {
    var r := current[cpu := Some(id)];
    assert r[cpu] == Some(id);
    if Some(other) in current && current[cpu] != Some(other) {
      var c :| 0 <= c < |current| && current[c] == Some(other);
      assert r[c] == Some(other);
    }
  }

  lemma FreeCurrent(current: seq<Option<EntityId>>, cpu: nat, other: EntityId)
    requires OneCpuEach(current) && cpu < |current|
    ensures OneCpuEach(current[cpu := None])
    ensures Some(other) in current[cpu := None] <==> Some(other) in current && current[cpu] != Some(other)
  {
    var r := current[cpu := None];
    if Some(other) in current && current[cpu] != Some(other) {
      var c :| 0 <= c < |current| && current[c] == Some(other);
      assert r[c] == Some(other);
    }
  }

  lemma IsCurrentAt(s: Sched, cpu: nat)
    requires cpu < |s.current| && s.current[cpu].Some?
    ensures IsCurrent(s, s.current[cpu].value)
  {
  }

  // ------------------------------------------------------- one entity at a time

  /**
   Steps change one entity (and, when forcing a CPU, the one it was running), so
   the others are judged by membership alone.
   */
  ghost predicate OtherSame(s: Sched, t: Sched, id: EntityId, other: EntityId) {
    other != id ==>
      && (other in t.entities <==> other in s.entities)
      && (other in s.entities ==> t.entities[other].state == s.entities[other].state
                                  && t.entities[other].published == s.entities[other].published)
      && (other in t.queue <==> other in s.queue)
      && (IsCurrent(t, other) <==> IsCurrent(s, other))
  }

  ghost predicate OtherProcess(s: Sched, t: Sched, id: EntityId, pid: nat) {
    KernelThread(pid) != id ==>
      (pid in t.processes <==> pid in s.processes) && (pid in s.processes ==> t.processes[pid] == s.processes[pid])
  }

  lemma OneChangedInv(s: Sched, t: Sched, id: EntityId)
    requires SchedInv(s) && EntityOk(t, id) && t.idle == s.idle && IdleOk(t)
    requires forall other :: OtherSame(s, t, id, other)
    requires forall pid :: OtherProcess(s, t, id, pid)
    requires |t.current| == MAX_CPUS && |t.entities| <= MAX_ENTITIES && NoDuplicates(t.queue) && OneCpuEach(t.current)
    requires id.KernelThread? ==> ProcessOk(t, id.pid)
    ensures SchedInv(t)
  {
    forall other
      ensures EntityOk(t, other)
    {
      assert EntityOk(s, other) && OtherSame(s, t, id, other);
    }
    forall pid
      ensures ProcessOk(t, pid)
    {
      assert ProcessOk(s, pid) && OtherProcess(s, t, id, pid) && OtherSame(s, t, id, KernelThread(pid));
    }
  }

  lemma KeysCard(m: map<EntityId, Entity>, id: EntityId, e: Entity)
    ensures |m[id := e]| == if id in m then |m| else |m| + 1
  {
    if id in m {
      assert m[id := e].Keys == m.Keys;
    } else {
      assert m[id := e].Keys == m.Keys + {id};
    }
  }

  lemma KeyDropped(m: map<EntityId, Entity>, id: EntityId)
    ensures |m - {id}| <= |m|
  {
    assert (m - {id}).Keys == m.Keys - {id};
  }

  // ---------------------------------------------------------------- transitions

  lemma EnqueuedAll(q: seq<EntityId>, id: EntityId)
    requires NoDuplicates(q)
    ensures NoDuplicates(Enqueued(q, id))
    ensures forall other :: other in Enqueued(q, id) <==> other in q || other == id
  {
    forall other
      ensures other in Enqueued(q, id) <==> other in q || other == id
    {
      EnqueuedMembers(q, id, other);
    }
  }

  lemma MadeReadyAgainInv(s: Sched, id: EntityId, contract: Option<nat>, now: nat)
    requires SchedInv(s) && id in s.entities && s.entities[id].state == Ready
    ensures SchedInv(MadeReady(s, id, contract, now))
  {
    hide NoDuplicates, OneCpuEach;
    var t := MadeReady(s, id, contract, now);
    assert EntityOk(s, id);
    assert id.KernelThread? ==> ProcessOk(s, id.pid);
    KeysCard(s.entities, id, t.entities[id]);
    EnqueuedAll(s.queue, id);
    OneChangedInv(s, t, id);
  }

  lemma MadeReadyFreshInv(s: Sched, id: EntityId, contract: Option<nat>, now: nat)
    requires SchedInv(s) && id in s.entities && s.entities[id].state == Blocked
    requires s.idle.Some? ==> id != KernelThread(s.idle.value)
    ensures SchedInv(MadeReady(s, id, contract, now))
  {
    hide NoDuplicates, OneCpuEach;
    var t := MadeReady(s, id, contract, now);
    assert EntityOk(s, id);
    assert id.KernelThread? ==> ProcessOk(s, id.pid);
    KeysCard(s.entities, id, t.entities[id]);
    EnqueuedAll(s.queue, id);
    OneChangedInv(s, t, id);
  }

  lemma MadeReadyInv(s: Sched, id: EntityId, contract: Option<nat>, now: nat)
    requires SchedInv(s) && (s.idle.Some? ==> id != KernelThread(s.idle.value))
    ensures SchedInv(MadeReady(s, id, contract, now))
  {
    assert EntityOk(s, id);
    if id in s.entities && s.entities[id].state == Ready {
      MadeReadyAgainInv(s, id, contract, now);
    } else if id in s.entities && s.entities[id].state == Blocked {
      MadeReadyFreshInv(s, id, contract, now);
    }
  }

  lemma BlockedInv(s: Sched, id: EntityId)
    requires SchedInv(s)
    ensures SchedInv(BlockedEntity(s, id))
  {
    hide NoDuplicates, OneCpuEach;
    var t := BlockedEntity(s, id);
    assert EntityOk(s, id);
    if id in s.entities {
      KeysCard(s.entities, id, t.entities[id]);
    }
    RemovedAll(s, id);
    if id.KernelThread? {
      assert ProcessOk(s, id.pid);
    }
    OneChangedInv(s, t, id);
  }

  lemma RemovedAll(s: Sched, id: EntityId)
    requires NoDuplicates(s.queue) && OneCpuEach(s.current)
    ensures NoDuplicates(Removed(s.queue, id)) && OneCpuEach(ClearCurrent(s.current, id))
    ensures forall other :: other in Removed(s.queue, id) <==> other in s.queue && other != id
    ensures forall other :: Some(other) in ClearCurrent(s.current, id) <==> IsCurrent(s, other) && other != id
  {
    RemovedMembers(s.queue, id, id);
    ClearedCurrent(s.current, id, id);
    forall other
      ensures other in Removed(s.queue, id) <==> other in s.queue && other != id
      ensures Some(other) in ClearCurrent(s.current, id) <==> IsCurrent(s, other) && other != id
    {
      RemovedMembers(s.queue, id, other);
      ClearedCurrent(s.current, id, other);
    }
  }

  /** Without an entity, every other one is as it was. */
  lemma EntityGone(s: Sched, processes: map<nat, Process>, id: EntityId)
    requires NoDuplicates(s.queue) && OneCpuEach(s.current)
    ensures var t := Unregistered(s.(processes := processes), id);
            && (forall other :: OtherSame(s, t, id, other)) && EntityOk(t, id) && id !in t.entities
            && NoDuplicates(t.queue) && OneCpuEach(t.current)
  {
    hide NoDuplicates, OneCpuEach;
    var t := Unregistered(s.(processes := processes), id);
    RemovedMembers(s.queue, id, id);
    ClearedCurrent(s.current, id, id);
    forall other
      ensures OtherSame(s, t, id, other)
    {
      RemovedMembers(s.queue, id, other);
      ClearedCurrent(s.current, id, other);
    }
  }

  lemma UserUnregisteredInv(s: Sched, id: EntityId)
    requires SchedInv(s) && id.UserProcess?
    ensures SchedInv(Unregistered(s, id))
  {
    hide NoDuplicates, OneCpuEach;
    KeyDropped(s.entities, id);
    EntityGone(s, s.processes, id);
    OneChangedInv(s, Unregistered(s, id), id);
  }

  /** A thread leaves together with its process. */
  lemma ThreadUnregisteredInv(s: Sched, pid: nat)
    requires SchedInv(s) && s.idle != Some(pid)
    ensures SchedInv(Unregistered(s.(processes := s.processes - {pid}), KernelThread(pid)))
  {
    hide NoDuplicates, OneCpuEach;
    var id := KernelThread(pid);
    KeyDropped(s.entities, id);
    EntityGone(s, s.processes - {pid}, id);
    OneChangedInv(s, Unregistered(s.(processes := s.processes - {pid}), id), id);
  }

  /** Marking a save keeps the invariant exactly for an entity that is not queued. */
  lemma SavingInv(s: Sched, id: EntityId)
    requires SchedInv(s)
    ensures SchedInv(Saving(s, id)) <==> id !in s.queue
  {
    hide NoDuplicates, OneCpuEach;
    var t := Saving(s, id);
    assert EntityOk(s, id);
    if id in s.queue {
      assert !EntityOk(t, id);
    } else if id in s.entities {
      KeysCard(s.entities, id, t.entities[id]);
      if id.KernelThread? {
        assert ProcessOk(s, id.pid);
      }
      OneChangedInv(s, t, id);
    }
  }

  lemma CurrentNotQueued(s: Sched, id: EntityId)
    requires SchedInv(s) && IsCurrent(s, id)
    ensures id !in s.queue && id in s.entities
  {
    assert EntityOk(s, id);
  }

  lemma PublishedInv(s: Sched, id: EntityId)
    requires SchedInv(s)
    ensures SchedInv(Published(s, id))
  {
    hide NoDuplicates, OneCpuEach;
    var t := Published(s, id);
    assert EntityOk(s, id);
    if id in s.entities {
      KeysCard(s.entities, id, t.entities[id]);
      EnqueuedAll(s.queue, id);
      if id.KernelThread? {
        assert ProcessOk(s, id.pid);
      }
      OneChangedInv(s, t, id);
    }
  }

  lemma DispatchedInv(s: Sched, k: nat, cpu: nat, now: nat)
    requires SchedInv(s) && k < |s.queue| && cpu < |s.current| && s.current[cpu].None?
    ensures SchedInv(Dispatched(s, k, cpu, now))
  {
    hide NoDuplicates, OneCpuEach;
    var t, id := Dispatched(s, k, cpu, now), s.queue[k];
    assert EntityOk(s, id);
    KeysCard(s.entities, id, t.entities[id]);
    forall other
      ensures NoDuplicates(t.queue) && (other in t.queue <==> other in s.queue && other != id)
      ensures OneCpuEach(t.current) && (IsCurrent(t, other) <==> IsCurrent(s, other) || other == id)
    {
      RemovedAtMembers(s.queue, k, other);
      SetCurrent(s.current, cpu, id, other);
    }
    if id.KernelThread? {
      assert ProcessOk(s, id.pid);
    }
    OneChangedInv(s, t, id);
  }

  lemma ScheduledInv(s: Sched, cpu: nat, now: nat)
    requires SchedInv(s) && cpu < |s.current| && s.current[cpu].None?
    ensures SchedInv(Scheduled(s, cpu, now))
  {
    var k := PickIndex(s, now, cpu);
    if k.Some? {
      DispatchedInv(s, k.value, cpu, now);
    }
  }

  lemma DisplacedInv(s: Sched, id: EntityId, cpu: nat)
    requires SchedInv(s) && cpu < |s.current| && s.current[cpu] == Some(id)
    ensures var d := Displaced(s, id, cpu);
            && SchedInv(d) && d.current == s.current[cpu := None] && id in d.entities && id !in d.queue
            && !IsCurrent(d, id) && d.entities[id].state == Ready && d.queue == s.queue
  {
    hide NoDuplicates, OneCpuEach;
    var t := Displaced(s, id, cpu);
    IsCurrentAt(s, cpu);
    assert EntityOk(s, id);
    KeysCard(s.entities, id, t.entities[id]);
    forall other
      ensures OneCpuEach(t.current) && (IsCurrent(t, other) <==> IsCurrent(s, other) && other != id)
    {
      FreeCurrent(s.current, cpu, other);
    }
    if id.KernelThread? {
      assert ProcessOk(s, id.pid);
    }
    OneChangedInv(s, t, id);
  }

  /** Nothing else to run: the interrupted entity carries on. */
  lemma ResumedInv(d: Sched, id: EntityId, cpu: nat)
    requires SchedInv(d) && cpu < |d.current| && d.current[cpu].None? && id in d.entities && id !in d.queue
    requires !IsCurrent(d, id) && (d.idle.Some? ==> id != KernelThread(d.idle.value))
    ensures var t := MarkProcess(d, id, ProcessRunning).(current := d.current[cpu := Some(id)]);
            SchedInv(WithEntity(t, id, d.entities[id].(state := Running, published := true)))
  {
    hide NoDuplicates, OneCpuEach;
    var e := d.entities[id].(state := Running, published := true);
    var t := WithEntity(MarkProcess(d, id, ProcessRunning).(current := d.current[cpu := Some(id)]), id, e);
    KeysCard(d.entities, id, e);
    forall other
      ensures OneCpuEach(t.current) && (IsCurrent(t, other) <==> IsCurrent(d, other) || other == id)
    {
      SetCurrent(d.current, cpu, id, other);
    }
    if id.KernelThread? {
      assert ProcessOk(d, id.pid);
    }
    OneChangedInv(d, t, id);
  }

  lemma CurrentNotIdle(s: Sched, id: EntityId)
    requires IdleOk(s) && EntityOk(s, id) && IsCurrent(s, id)
    ensures s.idle.Some? ==> id != KernelThread(s.idle.value)
  {
  }

  lemma PreemptedInv(s: Sched, id: EntityId, cpu: nat, now: nat)
    requires SchedInv(s) && cpu < |s.current| && s.current[cpu] == Some(id)
    ensures SchedInv(Preempted(s, id, cpu, now))
  {
    DisplacedInv(s, id, cpu);
    IsCurrentAt(s, cpu);
    assert EntityOk(s, id);
    CurrentNotIdle(s, id);
    var d := Displaced(s, id, cpu);
    if PickIndex(d, now, cpu).Some? {
      ScheduledInv(d, cpu, now);
    } else {
      ResumedInv(d, id, cpu);
    }
  }

  lemma UserPoppedInv(s: Sched, cpu: nat)
    requires SchedInv(s) && cpu < |s.current| && s.current[cpu].None?
    ensures SchedInv(UserPopped(s, cpu))
  {
    hide NoDuplicates, OneCpuEach;
    var k := FirstUser(s, cpu, 0);
    if k.Some? {
      var t, id := UserPopped(s, cpu), s.queue[k.value];
      assert EntityOk(s, id);
      KeysCard(s.entities, id, t.entities[id]);
      forall other
        ensures NoDuplicates(t.queue) && (other in t.queue <==> other in s.queue && other != id)
        ensures OneCpuEach(t.current) && (IsCurrent(t, other) <==> IsCurrent(s, other) || other == id)
      {
        RemovedAtMembers(s.queue, k.value, other);
        SetCurrent(s.current, cpu, id, other);
      }
      OneChangedInv(s, t, id);
    }
  }

  lemma UserClearedInv(s: Sched, cpu: nat, pid: nat)
    requires SchedInv(s) && cpu < |s.current|
    ensures SchedInv(UserCleared(s, cpu, pid))
  {
    hide NoDuplicates, OneCpuEach;
    var t, id := UserCleared(s, cpu, pid), UserProcess(pid);
    if s.current[cpu] == Some(id) {
      IsCurrentAt(s, cpu);
      assert EntityOk(s, id);
      KeysCard(s.entities, id, t.entities[id]);
      forall other
        ensures OneCpuEach(t.current) && (IsCurrent(t, other) <==> IsCurrent(s, other) && other != id)
      {
        FreeCurrent(s.current, cpu, other);
      }
      OneChangedInv(s, t, id);
    }
  }

  /** Taking a CPU's slot away from what it was running. */
  lemma StoppedInv(s: Sched, cpu: nat, id: EntityId)
    requires SchedInv(s) && cpu < |s.current| && s.current[cpu] != Some(id)
    ensures var t := Stopped(s, cpu, id).(current := s.current[cpu := None]);
            SchedInv(t) && |t.entities| == |s.entities| && t.queue == s.queue && (id in t.entities <==>
                id in s.entities)
  {
    hide NoDuplicates, OneCpuEach;
    var t := Stopped(s, cpu, id).(current := s.current[cpu := None]);
    if s.current[cpu].Some? {
      var previous := s.current[cpu].value;
      IsCurrentAt(s, cpu);
      assert EntityOk(s, previous);
      KeysCard(s.entities, previous, t.entities[previous]);
      forall other
        ensures OneCpuEach(t.current) && (IsCurrent(t, other) <==> IsCurrent(s, other) && other != previous)
      {
        FreeCurrent(s.current, cpu, other);
      }
      if previous.KernelThread? {
        assert ProcessOk(s, previous.pid);
      }
      OneChangedInv(s, t, previous);
    } else {
      assert s.current[cpu := None] == s.current;
    }
  }

  /** A user entity put on a free slot. */
  lemma PlacedInv(s: Sched, cpu: nat, id: EntityId, e: Entity)
    requires SchedInv(s) && cpu < |s.current| && s.current[cpu].None? && id.UserProcess? && !IsCurrent(s, id)
    requires id in s.entities || |s.entities| < MAX_ENTITIES
    requires e.state == Running
    ensures SchedInv(WithEntity(s.(queue := Removed(s.queue, id), current := s.current[cpu := Some(id)]), id, e))
  {
    hide NoDuplicates, OneCpuEach;
    var t := WithEntity(s.(queue := Removed(s.queue, id), current := s.current[cpu := Some(id)]), id, e);
    assert EntityOk(s, id);
    KeysCard(s.entities, id, e);
    forall other
      ensures NoDuplicates(t.queue) && (other in t.queue <==> other in s.queue && other != id)
      ensures OneCpuEach(t.current) && (IsCurrent(t, other) <==> IsCurrent(s, other) || other == id)
    {
      RemovedMembers(s.queue, id, other);
      SetCurrent(s.current, cpu, id, other);
    }
    OneChangedInv(s, t, id);
  }

  lemma ForcedInv(s: Sched, cpu: nat, id: EntityId)
    requires SchedInv(s) && cpu < |s.current| && id.UserProcess?
    requires IsCurrent(s, id) ==> s.current[cpu] == Some(id)
    requires id in s.entities || |s.entities| < MAX_ENTITIES
    ensures SchedInv(ForcedRunning(s, cpu, id))
  {
    if s.current[cpu] == Some(id) {
      ForcedAgain(s, cpu, id);
    } else {
      var t := Stopped(s, cpu, id).(current := s.current[cpu := None]);
      StoppedInv(s, cpu, id);
      FreeCurrent(s.current, cpu, id);
      var e := (if id in t.entities then t.entities[id] else NEW_ENTITY).(state := Running, mustRunBy := None);
      PlacedInv(t, cpu, id, e);
      assert t.current[cpu := Some(id)] == s.current[cpu := Some(id)];
    }
  }

  lemma ForcedAgain(s: Sched, cpu: nat, id: EntityId)
    requires SchedInv(s) && cpu < |s.current| && id.UserProcess? && s.current[cpu] == Some(id)
    ensures SchedInv(ForcedRunning(s, cpu, id))
  {
    hide NoDuplicates, OneCpuEach;
    var t := ForcedRunning(s, cpu, id);
    IsCurrentAt(s, cpu);
    assert EntityOk(s, id);
    RemovedAbsent(s.queue, id);
    assert s.current[cpu := Some(id)] == s.current;
    KeysCard(s.entities, id, t.entities[id]);
    OneChangedInv(s, t, id);
  }

  lemma YieldedInv(s: Sched, cpu: nat, id: EntityId)
    requires SchedInv(s) && cpu < |s.current| && id in s.entities
    requires IsCurrent(s, id) ==> s.current[cpu] == Some(id)
    requires s.idle.Some? ==> id != KernelThread(s.idle.value)
    ensures SchedInv(Yielded(s, cpu, id))
  {
    hide NoDuplicates, OneCpuEach;
    var t := Yielded(s, cpu, id);
    assert EntityOk(s, id);
    KeysCard(s.entities, id, t.entities[id]);
    forall other
      ensures NoDuplicates(t.queue) && (other in t.queue <==> other in s.queue || other == id)
      ensures OneCpuEach(t.current) && (IsCurrent(t, other) <==> IsCurrent(s, other) && other != id)
    {
      EnqueuedMembers(s.queue, id, other);
      FreeCurrent(s.current, cpu, other);
      if s.current[cpu] == Some(id) {
        IsCurrentAt(s, cpu);
      }
    }
    if id.KernelThread? {
      assert ProcessOk(s, id.pid);
    }
    OneChangedInv(s, t, id);
  }

  /** A current thread made ready, its context still being saved. */
  lemma CurrentYieldedInv(s: Sched, cpu: nat)
    requires SchedInv(s) && cpu < |s.current|
    ensures SchedInv(CurrentYielded(s, cpu))
  {
    hide NoDuplicates, OneCpuEach;
    if s.current[cpu].Some? && s.current[cpu].value.KernelThread? {
      var id := s.current[cpu].value;
      var t := CurrentYielded(s, cpu);
      IsCurrentAt(s, cpu);
      assert EntityOk(s, id) && ProcessOk(s, id.pid);
      CurrentNotIdle(s, id);
      KeysCard(s.entities, id, t.entities[id]);
      forall other
        ensures OneCpuEach(t.current) && (IsCurrent(t, other) <==> IsCurrent(s, other) && other != id)
      {
        FreeCurrent(s.current, cpu, other);
      }
      OneChangedInv(s, t, id);
    }
  }

  lemma CurrentBlockedInv(s: Sched, cpu: nat, reason: BlockReason)
    requires SchedInv(s) && cpu < |s.current|
    ensures SchedInv(CurrentBlocked(s, cpu, reason))
  {
    hide NoDuplicates, OneCpuEach;
    if s.current[cpu].Some? && s.current[cpu].value.KernelThread? {
      var id := s.current[cpu].value;
      var t := CurrentBlocked(s, cpu, reason);
      IsCurrentAt(s, cpu);
      assert EntityOk(s, id) && ProcessOk(s, id.pid);
      CurrentNotIdle(s, id);
      KeysCard(s.entities, id, t.entities[id]);
      RemovedAll(s, id);
      OneChangedInv(s, t, id);
    }
  }

  lemma WokenInv(s: Sched, pid: nat, contract: Option<nat>, now: nat)
    requires SchedInv(s)
    ensures SchedInv(Woken(s, pid, contract, now))
  {
    hide NoDuplicates, OneCpuEach;
    if pid in s.processes && s.processes[pid].state == ProcessBlocked {
      var id := KernelThread(pid);
      var t := WithProcess(s, id, ProcessReady, None);
      assert EntityOk(s, id) && ProcessOk(s, pid);
      OneChangedInv(s, t, id);
      MadeReadyInv(t, id, contract, now);
    }
  }

  lemma TerminatedInv(s: Sched, pid: nat)
    requires SchedInv(s) && s.idle != Some(pid)
    ensures SchedInv(Terminated(s, pid))
  {
    hide NoDuplicates, OneCpuEach;
    var id := KernelThread(pid);
    if IsCurrent(s, id) && pid in s.processes {
      var t := Terminated(s, pid);
      assert EntityOk(s, id) && ProcessOk(s, pid);
      OneChangedInv(s, t, id);
    } else {
      ThreadUnregisteredInv(s, pid);
      RemovedTwice(s.queue, id);
    }
  }

  lemma RemovedTwice(q: seq<EntityId>, id: EntityId)
    requires NoDuplicates(q)
    ensures Removed(Removed(q, id), id) == Removed(q, id)
  {
    RemovedMembers(q, id, id);
    RemovedAbsent(Removed(q, id), id);
  }

  lemma CurrentTerminatedInv(s: Sched, cpu: nat)
    requires SchedInv(s) && cpu < |s.current| && s.current[cpu].Some? && s.current[cpu].value.KernelThread?
    ensures SchedInv(CurrentTerminated(s, cpu))
  {
    var id := s.current[cpu].value;
    IsCurrentAt(s, cpu);
    assert EntityOk(s, id);
    CurrentNotIdle(s, id);
    ThreadUnregisteredInv(s, id.pid);
    ClearAfterFree(s.current, cpu, id);
  }

  lemma ClearAfterFree(current: seq<Option<EntityId>>, cpu: nat, id: EntityId)
    requires cpu < |current| && current[cpu] == Some(id)
    ensures ClearCurrent(current[cpu := None], id) == ClearCurrent(current, id)
  {
  }

  lemma SpawnedInv(s: Sched, pid: nat, now: nat)
    requires SchedInv(s) && pid !in s.processes && KernelThread(pid) !in s.entities && |s.entities| < MAX_ENTITIES
    requires s.idle != Some(pid)
    ensures SchedInv(Spawned(s, pid, now))
  {
    hide NoDuplicates, OneCpuEach;
    var id := KernelThread(pid);
    var t := WithEntity(s.(processes := s.processes[pid := Process(ProcessReady, None, false)]), id, NEW_ENTITY);
    assert EntityOk(s, id);
    KeysCard(s.entities, id, NEW_ENTITY);
    OneChangedInv(s, t, id);
    MadeReadyInv(t, id, None, now);
  }

  lemma UserRegisteredInv(s: Sched, pid: nat)
    requires SchedInv(s) && (UserProcess(pid) in s.entities || |s.entities| < MAX_ENTITIES)
    ensures SchedInv(UserRegistered(s, pid))
  {
    hide NoDuplicates, OneCpuEach;
    var id := UserProcess(pid);
    if id !in s.entities {
      assert EntityOk(s, id);
      KeysCard(s.entities, id, NEW_ENTITY);
      OneChangedInv(s, UserRegistered(s, pid), id);
    }
  }

  lemma BoundInv(s: Sched, id: EntityId, affinity: Option<nat>)
    requires SchedInv(s)
    ensures SchedInv(Bound(s, id, affinity))
  {
    hide NoDuplicates, OneCpuEach;
    if id in s.entities {
      var t := Bound(s, id, affinity);
      assert EntityOk(s, id);
      KeysCard(s.entities, id, t.entities[id]);
      if id.KernelThread? {
        assert ProcessOk(s, id.pid);
      }
      OneChangedInv(s, t, id);
    }
  }
}
