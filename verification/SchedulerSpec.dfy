/**
 The scheduler's transitions as functions on its state. Every method runs under
 one lock, so a run of the machine is a sequence of these steps, interleaved over
 the CPUs in any order.
 */
module SchedulerSpec {
  import opened Base

  const MAX_ENTITIES: nat := 256
  const MAX_CPUS: nat := 8

  datatype EntityId = KernelThread(pid: nat) | UserProcess(pid: nat)

  datatype RunState = Ready | Running | Blocked

  datatype Entity = Entity(
    state: RunState,
    runtimeTicks: nat,
    readySince: nat,
    mustRunBy: Option<nat>,
    contract: Option<nat>,
    published: bool,
    affinity: Option<nat>)

  datatype BlockReason = WaitingForBlockIo(token: nat) | WaitingForRing3Exit(ring3: nat) | WaitingForEvent

  datatype ProcessState = ProcessReady | ProcessRunning | ProcessBlocked

  datatype Process = Process(state: ProcessState, reason: Option<BlockReason>, terminationRequested: bool)

  datatype Sched = Sched(
    processes: map<nat, Process>,
    entities: map<EntityId, Entity>,
    queue: seq<EntityId>,
    current: seq<Option<EntityId>>,
    idle: Option<nat>,
    misses: nat)

  const NEW_ENTITY := Entity(Blocked, 0, 0, None, None, true, None)

  function SaturatingAdd(a: nat, b: nat): nat {
    Min(a + b, U64_END - 1)
  }

  // ------------------------------------------------------------------ run queue

  predicate NoDuplicates(q: seq<EntityId>) {
    forall i, j | 0 <= i < j < |q| :: q[i] != q[j]
  }

  function Enqueued(q: seq<EntityId>, id: EntityId): seq<EntityId> {
    if id in q then q else q + [id]
  }

  /** The first occurrence of an entity dropped. */
  function Removed(q: seq<EntityId>, id: EntityId): seq<EntityId> {
    if q == [] then [] else if q[0] == id then q[1..] else [q[0]] + Removed(q[1..], id)
  }

  function RemovedAt(q: seq<EntityId>, k: nat): seq<EntityId>
    requires k < |q|
  {
    q[..k] + q[k + 1..]
  }

  lemma {:induction false} RemovedIs(q: seq<EntityId>, id: EntityId, k: nat)
    requires k < |q| && q[k] == id && id !in q[..k]
    ensures Removed(q, id) == RemovedAt(q, k)
  {
    if 0 < k {
      assert q[0] == q[..k][0];
      assert q[1..][..k - 1] == q[..k][1..];
      RemovedIs(q[1..], id, k - 1);
      assert RemovedAt(q, k) == [q[0]] + RemovedAt(q[1..], k - 1);
    }
  }

  lemma {:induction false} RemovedAbsent(q: seq<EntityId>, id: EntityId)
    requires id !in q
    ensures Removed(q, id) == q
  {
    if q != [] {
      RemovedAbsent(q[1..], id);
    }
  }

  lemma RemovedAtMembers(q: seq<EntityId>, k: nat, id: EntityId)
    requires k < |q| && NoDuplicates(q)
    ensures NoDuplicates(RemovedAt(q, k))
    ensures id in RemovedAt(q, k) <==> id in q && id != q[k]
  {
    var r := RemovedAt(q, k);
    if id in q && id != q[k] {
      var j :| 0 <= j < |q| && q[j] == id;
      assert r[if j < k then j else j - 1] == id;
    }
  }

  lemma RemovedMembers(q: seq<EntityId>, id: EntityId, other: EntityId)
    requires NoDuplicates(q)
    ensures NoDuplicates(Removed(q, id))
    ensures other in Removed(q, id) <==> other in q && other != id
  {
    if id in q {
      var k :| 0 <= k < |q| && q[k] == id;
      RemovedIs(q, id, k);
      RemovedAtMembers(q, k, other);
    } else {
      RemovedAbsent(q, id);
    }
  }

  lemma EnqueuedMembers(q: seq<EntityId>, id: EntityId, other: EntityId)
    requires NoDuplicates(q)
    ensures NoDuplicates(Enqueued(q, id))
    ensures other in Enqueued(q, id) <==> other in q || other == id
  {
  }

  // ------------------------------------------------------------------ selection

  predicate EligibleId(s: Sched, id: EntityId, cpu: nat) {
    id in s.entities && (s.entities[id].affinity.None? || s.entities[id].affinity.value == cpu)
  }

  predicate Eligible(s: Sched, k: nat, cpu: nat) {
    k < |s.queue| && EligibleId(s, s.queue[k], cpu)
  }

  /** An eligible entry whose dispatch ceiling has been reached. */
  predicate Overdue(s: Sched, k: nat, now: nat, cpu: nat) {
    && Eligible(s, k, cpu)
    && s.entities[s.queue[k]].mustRunBy.Some? && s.entities[s.queue[k]].mustRunBy.value <= now
  }

  function Deadline(s: Sched, k: nat): nat
    requires k < |s.queue| && s.queue[k] in s.entities && s.entities[s.queue[k]].mustRunBy.Some?
  {
    s.entities[s.queue[k]].mustRunBy.value
  }

  /** The overdue entry chosen among the first `n`. */
  function EarliestDue(s: Sched, now: nat, cpu: nat, n: nat): (r: Option<nat>)
    requires n <= |s.queue|
    ensures r.Some? ==> r.value < n && Overdue(s, r.value, now, cpu)
  {
    if n == 0 then None else
      var best := EarliestDue(s, now, cpu, n - 1);
      if Overdue(s, n - 1, now, cpu) && (best.None? || Deadline(s, n - 1) < Deadline(s, best.value))
      then Some(n - 1) else best
  }

  function FirstEligible(s: Sched, cpu: nat, from: nat): (r: Option<nat>)
    requires from <= |s.queue|
    ensures r.Some? ==> from <= r.value && Eligible(s, r.value, cpu)
    decreases |s.queue| - from
  {
    if from == |s.queue| then None
    else if Eligible(s, from, cpu) then Some(from) else FirstEligible(s, cpu, from + 1)
  }

  function PickIndex(s: Sched, now: nat, cpu: nat): (r: Option<nat>)
    ensures r.Some? ==> Eligible(s, r.value, cpu)
  {
    var due := EarliestDue(s, now, cpu, |s.queue|);
    if due.Some? then due else FirstEligible(s, cpu, 0)
  }

  ghost predicate NoneOverdue(s: Sched, now: nat, cpu: nat) {
    forall k: nat :: !Overdue(s, k, now, cpu)
  }

  /** `k` beats every overdue entry: an earlier deadline, or the same and ahead in the queue. */
  ghost predicate IsEarliestDue(s: Sched, now: nat, cpu: nat, k: nat) {
    && Overdue(s, k, now, cpu)
    && forall j: nat | Overdue(s, j, now, cpu) && j != k ::
         Deadline(s, k) < Deadline(s, j) || (Deadline(s, k) == Deadline(s, j) && k < j)
  }

  ghost predicate IsFirstEligible(s: Sched, cpu: nat, k: nat) {
    Eligible(s, k, cpu) && forall j: nat | Eligible(s, j, cpu) :: k <= j
  }

  lemma {:induction false} EarliestDueIs(s: Sched, now: nat, cpu: nat, n: nat)
    requires n <= |s.queue|
    ensures var r := EarliestDue(s, now, cpu, n);
            && (r.None? ==> forall j: nat | j < n :: !Overdue(s, j, now, cpu))
            && (r.Some? ==> forall j: nat | j < n && Overdue(s, j, now, cpu) && j != r.value ::
                              Deadline(s, r.value) < Deadline(s, j)
                              || (Deadline(s, r.value) == Deadline(s, j) && r.value < j))
  {
    if 0 < n {
      EarliestDueIs(s, now, cpu, n - 1);
    }
  }

  lemma {:induction false} FirstEligibleIs(s: Sched, cpu: nat, from: nat)
    requires from <= |s.queue|
    ensures var r := FirstEligible(s, cpu, from);
            forall j: nat | from <= j && Eligible(s, j, cpu) :: r.Some? && r.value <= j
    decreases |s.queue| - from
  {
    if from < |s.queue| && !Eligible(s, from, cpu) {
      FirstEligibleIs(s, cpu, from + 1);
    }
  }

  /** The earliest overdue eligible entry, queue order on ties; else the first eligible; else none. */
  lemma PickIs(s: Sched, now: nat, cpu: nat)
    ensures var r := PickIndex(s, now, cpu);
            && (r.None? <==> forall k: nat :: !Eligible(s, k, cpu))
            && (r.Some? && !NoneOverdue(s, now, cpu) ==> IsEarliestDue(s, now, cpu, r.value))
            && (r.Some? && NoneOverdue(s, now, cpu) ==> IsFirstEligible(s, cpu, r.value))
  {
    EarliestDueIs(s, now, cpu, |s.queue|);
    FirstEligibleIs(s, cpu, 0);
  }

  /** Said of the fields: an entry that may run here and whose time has come is never passed over for a later one. */
  lemma PickBeatsOverdue(s: Sched, now: nat, cpu: nat, j: nat)
    requires j < |s.queue| && s.queue[j] in s.entities
    requires var e := s.entities[s.queue[j]];
             && (e.affinity.None? || e.affinity == Some(cpu))
             && e.mustRunBy.Some? && e.mustRunBy.value <= now
    ensures var r := PickIndex(s, now, cpu);
            && r.Some? && r.value < |s.queue| && s.queue[r.value] in s.entities
            && var e, x := s.entities[s.queue[j]], s.entities[s.queue[r.value]];
               && (x.affinity.None? || x.affinity == Some(cpu)) && x.mustRunBy.Some?
               && (x.mustRunBy.value < e.mustRunBy.value || (x.mustRunBy.value == e.mustRunBy.value && r.value <= j))
  {
    PickIs(s, now, cpu);
    assert Overdue(s, j, now, cpu);
  }

  /** And while no one's time has come, an entry that may run here is never passed over for one behind it. */
  lemma PickIsFair(s: Sched, now: nat, cpu: nat, j: nat)
    requires j < |s.queue| && s.queue[j] in s.entities
    requires s.entities[s.queue[j]].affinity.None? || s.entities[s.queue[j]].affinity == Some(cpu)
    requires forall id | id in s.queue && id in s.entities && s.entities[id].mustRunBy.Some? ::
               now < s.entities[id].mustRunBy.value
    ensures PickIndex(s, now, cpu).Some? && PickIndex(s, now, cpu).value <= j
  {
    PickIs(s, now, cpu);
    assert Eligible(s, j, cpu);
    forall k: nat
      ensures !Overdue(s, k, now, cpu)
    {
    }
  }

  // ---------------------------------------------------------------- transitions

  function WithEntity(s: Sched, id: EntityId, e: Entity): Sched {
    s.(entities := s.entities[id := e])
  }

  function WithProcess(s: Sched, id: EntityId, state: ProcessState, reason: Option<BlockReason>): Sched {
    if id.KernelThread? && id.pid in s.processes
    then s.(processes := s.processes[id.pid := s.processes[id.pid].(state := state, reason := reason)])
    else s
  }

  /** The process state follows a dispatch; the recorded reason is left alone. */
  function MarkProcess(s: Sched, id: EntityId, state: ProcessState): Sched {
    if id.KernelThread? && id.pid in s.processes
    then s.(processes := s.processes[id.pid := s.processes[id.pid].(state := state)])
    else s
  }

  predicate IsCurrent(s: Sched, id: EntityId) {
    Some(id) in s.current
  }

  /** The dispatch ceiling of an entity that is already ready can only come closer. */
  function Sooner(e: Entity, contract: Option<nat>, now: nat): Entity {
    if contract.None? then e else
      var deadline := SaturatingAdd(now, contract.value);
      e.(contract := contract,
         mustRunBy := Some(if e.mustRunBy.Some? then Min(e.mustRunBy.value, deadline) else deadline))
  }

  function MadeReady(s: Sched, id: EntityId, contract: Option<nat>, now: nat): Sched {
    if id !in s.entities then s
    else if s.entities[id].state == Running && IsCurrent(s, id) then s
    else if s.entities[id].state == Ready then
      var t := WithEntity(s, id, Sooner(s.entities[id], contract, now));
      if s.entities[id].published then t.(queue := Enqueued(s.queue, id)) else t
    else
      var e := s.entities[id].(state := Ready, readySince := now, contract := contract,
        mustRunBy := if contract.Some? then Some(SaturatingAdd(now, contract.value)) else None);
      var t := WithEntity(WithProcess(s, id, ProcessReady, None), id, e);
      if e.published then t.(queue := Enqueued(s.queue, id)) else t
  }

  function ClearCurrent(current: seq<Option<EntityId>>, id: EntityId): seq<Option<EntityId>> {
    seq(|current|, i requires 0 <= i < |current| => if current[i] == Some(id) then None else current[i])
  }

  function BlockedEntity(s: Sched, id: EntityId): Sched {
    var t := s.(queue := Removed(s.queue, id), current := ClearCurrent(s.current, id));
    if id in s.entities then WithEntity(t, id, s.entities[id].(state := Blocked, mustRunBy := None)) else t
  }

  function Unregistered(s: Sched, id: EntityId): Sched {
    s.(queue := Removed(s.queue, id), current := ClearCurrent(s.current, id), entities := s.entities - {id})
  }

  function Saving(s: Sched, id: EntityId): Sched {
    if id in s.entities then WithEntity(s, id, s.entities[id].(published := false)) else s
  }

  function Published(s: Sched, id: EntityId): Sched {
    if id !in s.entities then s else
      var t := WithEntity(s, id, s.entities[id].(published := true));
      if s.entities[id].state == Ready then t.(queue := Enqueued(s.queue, id)) else t
  }

  /** The entry at `k` handed to a CPU. */
  function Dispatched(s: Sched, k: nat, cpu: nat, now: nat): Sched
    requires k < |s.queue| && cpu < |s.current|
  {
    var id := s.queue[k];
    var t := s.(queue := RemovedAt(s.queue, k), current := s.current[cpu := Some(id)]);
    if id !in s.entities then MarkProcess(t, id, ProcessRunning) else
      var e := s.entities[id];
      var missed := e.mustRunBy.Some? && e.mustRunBy.value < now;
      MarkProcess(WithEntity(t.(misses := if missed then SaturatingAdd(s.misses, 1) else s.misses), id,
                             e.(state := Running, mustRunBy := None, contract := None)), id, ProcessRunning)
  }

  function Scheduled(s: Sched, cpu: nat, now: nat): Sched
    requires cpu < |s.current|
  {
    var k := PickIndex(s, now, cpu);
    if k.None? then s else Dispatched(s, k.value, cpu, now)
  }

  /** A running entity made ready with its context still being saved. */
  function Displaced(s: Sched, id: EntityId, cpu: nat): Sched
    requires cpu < |s.current|
  {
    var t := MarkProcess(s, id, ProcessReady);
    var u := if s.current[cpu] == Some(id) then t.(current := s.current[cpu := None]) else t;
    if id in s.entities
    then WithEntity(u, id, s.entities[id].(runtimeTicks := SaturatingAdd(s.entities[id].runtimeTicks, 1),
                                           published := false, state := Ready, mustRunBy := None))
    else u
  }

  function Preempted(s: Sched, id: EntityId, cpu: nat, now: nat): Sched
    requires cpu < |s.current|
  {
    var d := Displaced(s, id, cpu);
    if PickIndex(d, now, cpu).Some? then Scheduled(d, cpu, now) else
      var t := MarkProcess(d, id, ProcessRunning).(current := d.current[cpu := Some(id)]);
      if id in d.entities then WithEntity(t, id, d.entities[id].(state := Running, published := true)) else t
  }

  /** The first eligible user process of the queue. */
  function FirstUser(s: Sched, cpu: nat, from: nat): (r: Option<nat>)
    requires from <= |s.queue|
    ensures r.Some? ==> from <= r.value && Eligible(s, r.value, cpu) && s.queue[r.value].UserProcess?
    decreases |s.queue| - from
  {
    if from == |s.queue| then None
    else if s.queue[from].UserProcess? && Eligible(s, from, cpu) then Some(from)
    else FirstUser(s, cpu, from + 1)
  }

  function UserPopped(s: Sched, cpu: nat): Sched
    requires cpu < |s.current|
  {
    var k := FirstUser(s, cpu, 0);
    if k.None? then s else
      var id := s.queue[k.value];
      WithEntity(s.(queue := RemovedAt(s.queue, k.value), current := s.current[cpu := Some(id)]), id,
                 s.entities[id].(state := Running, mustRunBy := None))
  }

  function UserCleared(s: Sched, cpu: nat, pid: nat): Sched
    requires cpu < |s.current|
  {
    var id := UserProcess(pid);
    if s.current[cpu] != Some(id) then s else
      var t := s.(current := s.current[cpu := None]);
      if id in s.entities && s.entities[id].state == Running
      then WithEntity(t, id, s.entities[id].(state := Blocked)) else t
  }

  /** The entity a CPU stops running when it is made to run another. */
  function Stopped(s: Sched, cpu: nat, id: EntityId): Sched
    requires cpu < |s.current|
  {
    match s.current[cpu]
    case None => s
    case Some(previous) =>
      if previous != id && previous in s.entities && s.entities[previous].state == Running
      then WithEntity(s, previous, s.entities[previous].(state := Blocked)) else s
  }

  function ForcedRunning(s: Sched, cpu: nat, id: EntityId): Sched
    requires cpu < |s.current|
  {
    var t := Stopped(s, cpu, id);
    var e := if id in t.entities then t.entities[id] else NEW_ENTITY;
    WithEntity(t.(queue := Removed(t.queue, id), current := t.current[cpu := Some(id)]), id,
               e.(state := Running, mustRunBy := None))
  }

  function Yielded(s: Sched, cpu: nat, id: EntityId): Sched
    requires cpu < |s.current|
  {
    var t := if s.current[cpu] == Some(id) then s.(current := s.current[cpu := None]) else s;
    var u := if id in s.entities
      then WithEntity(t, id, s.entities[id].(state := Ready, mustRunBy := None, published := true)) else t;
    u.(queue := Enqueued(s.queue, id))
  }

  function CurrentYielded(s: Sched, cpu: nat): Sched
    requires cpu < |s.current|
  {
    match s.current[cpu]
    case Some(KernelThread(pid)) =>
      var id := KernelThread(pid);
      var t := Saving(s, id).(current := s.current[cpu := None]);
      if pid in s.processes && s.processes[pid].state == ProcessRunning then
        var u := MarkProcess(t, id, ProcessReady);
        if s.idle != Some(pid) && id in u.entities
        then WithEntity(u, id, u.entities[id].(state := Ready)) else u
      else t
    case _ => s
  }

  function CurrentBlocked(s: Sched, cpu: nat, reason: BlockReason): Sched
    requires cpu < |s.current|
  {
    match s.current[cpu]
    case Some(KernelThread(pid)) =>
      BlockedEntity(WithProcess(Saving(s, KernelThread(pid)), KernelThread(pid), ProcessBlocked, Some(reason)),
                    KernelThread(pid))
    case _ => s
  }

  function Woken(s: Sched, pid: nat, contract: Option<nat>, now: nat): Sched {
    if pid in s.processes && s.processes[pid].state == ProcessBlocked
    then MadeReady(WithProcess(s, KernelThread(pid), ProcessReady, None), KernelThread(pid), contract, now)
    else s
  }

  /** Whether a block-I/O completion can be taken off the wake records. */
  predicate AcceptsIo(s: Sched, pid: nat) {
    pid in s.processes ==>
      && s.processes[pid].state == ProcessBlocked
      && s.processes[pid].reason.Some? && s.processes[pid].reason.value.WaitingForBlockIo?
  }

  predicate AwaitsIo(s: Sched, pid: nat, token: nat) {
    pid in s.processes && s.processes[pid].state == ProcessBlocked
        && s.processes[pid].reason == Some(WaitingForBlockIo(token))
  }

  function IoWoken(s: Sched, pid: nat, token: nat, now: nat): Sched {
    if AwaitsIo(s, pid, token) then Woken(s, pid, None, now) else s
  }

  function CurrentTerminated(s: Sched, cpu: nat): Sched
    requires cpu < |s.current|
  {
    match s.current[cpu]
    case Some(KernelThread(pid)) =>
      Unregistered(s.(processes := s.processes - {pid}, current := s.current[cpu := None]), KernelThread(pid))
    case _ => s.(current := s.current[cpu := None])
  }

  function Terminated(s: Sched, pid: nat): Sched {
    var id := KernelThread(pid);
    if IsCurrent(s, id) && pid in s.processes
    then s.(processes := s.processes[pid := s.processes[pid].(terminationRequested := true)])
    else Unregistered(s.(processes := s.processes - {pid}, queue := Removed(s.queue, id)), id)
  }

  function Spawned(s: Sched, pid: nat, now: nat): Sched {
    MadeReady(WithEntity(s.(processes := s.processes[pid := Process(ProcessReady, None, false)]),
                         KernelThread(pid), NEW_ENTITY), KernelThread(pid), None, now)
  }

  function UserRegistered(s: Sched, pid: nat): Sched {
    if UserProcess(pid) in s.entities then s else WithEntity(s, UserProcess(pid), NEW_ENTITY)
  }

  function Bound(s: Sched, id: EntityId, affinity: Option<nat>): Sched {
    if id in s.entities then WithEntity(s, id, s.entities[id].(affinity := affinity)) else s
  }
}
