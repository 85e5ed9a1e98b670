/** Bounded waiting: who can come before a queued entity, and for how long. */
module SchedulerWaiting {
  import opened Base
  import opened SchedulerSpec
  import opened SchedulerSafety
  import opened SchedulerRuns

  function Weight(s: Sched, id: EntityId, cpu: nat): nat {
    if EligibleId(s, id, cpu) then 1 else 0
  }

  /** How many entries that `cpu` could take stand before `id` in the queue `q`. */
  function Ahead(s: Sched, q: seq<EntityId>, cpu: nat, id: EntityId): nat {
    if q == [] || q[0] == id then 0 else Weight(s, q[0], cpu) + Ahead(s, q[1..], cpu, id)
  }

  lemma {:induction false} AheadAppend(s: Sched, q: seq<EntityId>, x: EntityId, cpu: nat, id: EntityId)
    requires id in q
    ensures Ahead(s, q + [x], cpu, id) == Ahead(s, q, cpu, id)
  {
    if q[0] != id {
      assert (q + [x])[1..] == q[1..] + [x];
      AheadAppend(s, q[1..], x, cpu, id);
    }
  }

  /** Taking out another entry brings `id` forward if the entry stood before it and counted. */
  lemma {:induction false} AheadRemoveAt(s: Sched, q: seq<EntityId>, k: nat, cpu: nat, id: EntityId)
    requires k < |q| && q[k] != id && id in q
    ensures Ahead(s, RemovedAt(q, k), cpu, id) <= Ahead(s, q, cpu, id)
    ensures id !in q[..k] ==> Ahead(s, RemovedAt(q, k), cpu, id) + Weight(s, q[k], cpu) == Ahead(s, q, cpu, id)
  {
    if k == 0 {
      assert RemovedAt(q, k) == q[1..];
    } else {
      assert RemovedAt(q, k) == [q[0]] + RemovedAt(q[1..], k - 1);
      assert RemovedAt(q, k)[1..] == RemovedAt(q[1..], k - 1);
      if q[0] == id {
        assert q[..k][0] == id;
      } else {
        AheadRemoveAt(s, q[1..], k - 1, cpu, id);
        if id !in q[..k] {
          assert q[1..][..k - 1] == q[..k][1..];
        }
      }
    }
  }

  lemma AheadRemove(s: Sched, q: seq<EntityId>, x: EntityId, cpu: nat, id: EntityId)
    requires id in q && x != id && NoDuplicates(q)
    ensures Ahead(s, Removed(q, x), cpu, id) <= Ahead(s, q, cpu, id)
    ensures id in Removed(q, x)
  {
    RemovedMembers(q, x, id);
    if x in q {
      var k :| 0 <= k < |q| && q[k] == x;
      RemovedIs(q, x, k);
      AheadRemoveAt(s, q, k, cpu, id);
    } else {
      RemovedAbsent(q, x);
    }
  }

  lemma AheadEnqueue(s: Sched, q: seq<EntityId>, x: EntityId, cpu: nat, id: EntityId)
    requires id in q
    ensures Ahead(s, Enqueued(q, x), cpu, id) == Ahead(s, q, cpu, id)
  {
    if x !in q {
      AheadAppend(s, q, x, cpu, id);
    }
  }

  lemma {:induction false} AheadSame(s: Sched, t: Sched, q: seq<EntityId>, cpu: nat, id: EntityId)
    requires forall x | x in q && x in BeforeOf(q, id) :: EligibleId(s, x, cpu) == EligibleId(t, x, cpu)
    ensures Ahead(s, q, cpu, id) == Ahead(t, q, cpu, id)
  {
    if q != [] && q[0] != id {
      assert q[0] in BeforeOf(q, id);
      AheadSame(s, t, q[1..], cpu, id);
    }
  }

  /** The entries that stand before `id`. */
  function BeforeOf(q: seq<EntityId>, id: EntityId): set<EntityId> {
    if q == [] || q[0] == id then {} else {q[0]} + BeforeOf(q[1..], id)
  }

  // --------------------------------------------------- what each step does to it

  /** The queue after a step: an entry taken out, or one added at the tail, or neither. */
  ghost predicate QueueMoved(s: Sched, t: Sched, id: EntityId) {
    || t.queue == s.queue
    || (exists x :: x != id && t.queue == Removed(s.queue, x))
    || (exists x :: t.queue == Enqueued(s.queue, x))
    || (exists k: nat :: k < |s.queue| && s.queue[k] != id && t.queue == RemovedAt(s.queue, k))
  }

  lemma MovedAhead(s: Sched, t: Sched, cpu: nat, id: EntityId)
    requires NoDuplicates(s.queue) && id in s.queue && QueueMoved(s, t, id)
    ensures Ahead(s, t.queue, cpu, id) <= Ahead(s, s.queue, cpu, id)
  {
    if x :| x != id && t.queue == Removed(s.queue, x) {
      AheadRemove(s, s.queue, x, cpu, id);
    } else if x :| t.queue == Enqueued(s.queue, x) {
      AheadEnqueue(s, s.queue, x, cpu, id);
    } else if k: nat :| k < |s.queue| && s.queue[k] != id && t.queue == RemovedAt(s.queue, k) {
      AheadRemoveAt(s, s.queue, k, cpu, id);
    }
  }

  lemma TakenIsGone(q: seq<EntityId>, k: nat, id: EntityId)
    requires NoDuplicates(q) && k < |q| && id in RemovedAt(q, k)
    ensures q[k] != id
  {
    RemovedAtMembers(q, k, id);
  }

  lemma GoneIfRemoved(q: seq<EntityId>, x: EntityId, id: EntityId)
    requires NoDuplicates(q) && id in Removed(q, x)
    ensures x != id
  {
    RemovedMembers(q, x, id);
  }

  lemma ScheduledQueue(s: Sched, cpu: nat, now: nat, id: EntityId)
    requires NoDuplicates(s.queue) && cpu < |s.current| && id in Scheduled(s, cpu, now).queue
    ensures QueueMoved(s, Scheduled(s, cpu, now), id)
  {
    var k := PickIndex(s, now, cpu);
    if k.Some? {
      TakenIsGone(s.queue, k.value, id);
    }
  }

  lemma PreemptedQueue(s: Sched, x: EntityId, cpu: nat, now: nat, id: EntityId)
    requires NoDuplicates(s.queue) && cpu < |s.current| && id in Preempted(s, x, cpu, now).queue
    ensures QueueMoved(s, Preempted(s, x, cpu, now), id)
  {
    var d := Displaced(s, x, cpu);
    assert d.queue == s.queue;
    if PickIndex(d, now, cpu).Some? {
      ScheduledQueue(d, cpu, now, id);
    }
  }

  lemma PoppedQueue(s: Sched, cpu: nat, id: EntityId)
    requires NoDuplicates(s.queue) && cpu < |s.current| && id in UserPopped(s, cpu).queue
    ensures QueueMoved(s, UserPopped(s, cpu), id)
  {
    var k := FirstUser(s, cpu, 0);
    if k.Some? {
      TakenIsGone(s.queue, k.value, id);
    }
  }

  lemma RemovalQueue(s: Sched, t: Sched, x: EntityId, id: EntityId)
    requires NoDuplicates(s.queue) && id in t.queue && t.queue == Removed(s.queue, x)
    ensures QueueMoved(s, t, id)
  {
    GoneIfRemoved(s.queue, x, id);
  }

  lemma ReadyQueue(s: Sched, x: EntityId, contract: Option<nat>, now: nat, id: EntityId)
    ensures QueueMoved(s, MadeReady(s, x, contract, now), id)
  {
    assert MadeReady(s, x, contract, now).queue == s.queue
            || MadeReady(s, x, contract, now).queue == Enqueued(s.queue, x);
  }

  lemma WokenQueue(s: Sched, pid: nat, contract: Option<nat>, now: nat, id: EntityId)
    ensures QueueMoved(s, Woken(s, pid, contract, now), id)
  {
    ReadyQueue(WithProcess(s, KernelThread(pid), ProcessReady, None), KernelThread(pid), contract, now, id);
  }

  lemma SpawnedQueue(s: Sched, pid: nat, now: nat, id: EntityId)
    ensures QueueMoved(s, Spawned(s, pid, now), id)
  {
    ReadyQueue(WithEntity(s.(processes := s.processes[pid := Process(ProcessReady, None, false)]),
                          KernelThread(pid), NEW_ENTITY), KernelThread(pid), None, now, id);
  }

  lemma NamedQueue(s: Sched, x: EntityId, cpu: nat, id: EntityId)
    requires NoDuplicates(s.queue) && cpu < |s.current|
    ensures QueueMoved(s, Published(s, x), id) && QueueMoved(s, Yielded(s, cpu, x), id)
    ensures id in BlockedEntity(s, x).queue ==> QueueMoved(s, BlockedEntity(s, x), id)
    ensures id in Unregistered(s, x).queue ==> QueueMoved(s, Unregistered(s, x), id)
  {
    assert Published(s, x).queue == s.queue || Published(s, x).queue == Enqueued(s.queue, x);
    if id in Removed(s.queue, x) {
      RemovalQueue(s, BlockedEntity(s, x), x, id);
      RemovalQueue(s, Unregistered(s, x), x, id);
    }
  }

  lemma IoQueue(s: Sched, pid: nat, token: nat, now: nat, id: EntityId)
    ensures QueueMoved(s, IoWoken(s, pid, token, now), id)
  {
    WokenQueue(s, pid, None, now, id);
  }

  lemma CurrentQueue(s: Sched, cpu: nat, reason: BlockReason, id: EntityId)
    requires NoDuplicates(s.queue) && cpu < |s.current|
    ensures id in CurrentBlocked(s, cpu, reason).queue ==> QueueMoved(s, CurrentBlocked(s, cpu, reason), id)
    ensures id in CurrentTerminated(s, cpu).queue ==> QueueMoved(s, CurrentTerminated(s, cpu), id)
  {
    if s.current[cpu].Some? && s.current[cpu].value.KernelThread? {
      var x := s.current[cpu].value;
      if id in Removed(s.queue, x) {
        RemovalQueue(s, CurrentBlocked(s, cpu, reason), x, id);
        RemovalQueue(s, CurrentTerminated(s, cpu), x, id);
      }
    }
  }

  lemma TerminatedQueue(s: Sched, pid: nat, id: EntityId)
    requires SchedInv(s) && id in Terminated(s, pid).queue
    ensures QueueMoved(s, Terminated(s, pid), id)
  {
    var x := KernelThread(pid);
    if !(IsCurrent(s, x) && pid in s.processes) {
      RemovedTwice(s.queue, x);
      RemovalQueue(s, Terminated(s, pid), x, id);
    }
  }

  lemma StoppedQueue(s: Sched, cpu: nat, x: EntityId, id: EntityId)
    requires SchedInv(s) && cpu < |s.current| && id in ForcedRunning(s, cpu, x).queue
    ensures QueueMoved(s, ForcedRunning(s, cpu, x), id)
  {
    assert ForcedRunning(s, cpu, x).queue == Removed(s.queue, x);
    RemovalQueue(s, ForcedRunning(s, cpu, x), x, id);
  }

  lemma QuietQueue(s: Sched, st: Step, id: EntityId)
    requires SchedInv(s) && Enabled(s, st)
    requires st.RegisterUser? || st.BeginSave? || st.ClearUser? || st.YieldCurrent? || st.SetAffinity?
    ensures QueueMoved(s, Apply(s, st), id)
  {
  }

  lemma StepQueue(s: Sched, st: Step, id: EntityId)
    requires SchedInv(s) && Enabled(s, st) && id in s.queue && id in Apply(s, st).queue
    ensures QueueMoved(s, Apply(s, st), id)
  {
    hide SchedInv, QueueMoved, Scheduled, Preempted, UserPopped, ForcedRunning, Terminated, CurrentBlocked,
         CurrentTerminated, MadeReady, Woken, IoWoken, Spawned, Published, Yielded, BlockedEntity, Unregistered;
    QueueIsSet(s);
    match st
    case Schedule(cpu, now) => ScheduledQueue(s, cpu, now, id);
    case Preempt(cpu, now) => PreemptedQueue(s, s.current[cpu].value, cpu, now, id);
    case PopUser(cpu) => PoppedQueue(s, cpu, id);
    case SetRunning(cpu, x) => StoppedQueue(s, cpu, x, id);
    case Terminate(pid) => TerminatedQueue(s, pid, id);
    case BlockCurrent(cpu, reason) => CurrentQueue(s, cpu, reason, id);
    case TerminateCurrent(cpu) => CurrentQueue(s, cpu, WaitingForEvent, id);
    case Block(x) => NamedQueue(s, x, 0, id);
    case Unregister(x) => NamedQueue(s, x, 0, id);
    case Publish(x) => NamedQueue(s, x, 0, id);
    case Yield(cpu, x) => NamedQueue(s, x, cpu, id);
    case MakeReady(x, contract, now) => ReadyQueue(s, x, contract, now, id);
    case Spawn(pid, now) => SpawnedQueue(s, pid, now, id);
    case Wake(pid, contract, now) => WokenQueue(s, pid, contract, now, id);
    case WakeIo(pid, token, now) => IoQueue(s, pid, token, now, id);
    case _ => QuietQueue(s, st, id);
  }

  // ------------------------------------------------------------------ affinities

  ghost predicate AffinityKept(s: Sched, t: Sched, x: EntityId) {
    x in s.entities && x in t.entities ==> t.entities[x].affinity == s.entities[x].affinity
  }

  lemma ScheduledAffinity(s: Sched, cpu: nat, now: nat, x: EntityId)
    requires cpu < |s.current|
    ensures AffinityKept(s, Scheduled(s, cpu, now), x) && AffinityKept(s, UserPopped(s, cpu), x)
    ensures x in s.entities ==> x in Scheduled(s, cpu, now).entities
  {
  }

  lemma PreemptedAffinity(s: Sched, id: EntityId, cpu: nat, now: nat, x: EntityId)
    requires cpu < |s.current|
    ensures AffinityKept(s, Preempted(s, id, cpu, now), x)
  {
    var d := Displaced(s, id, cpu);
    assert AffinityKept(s, d, x);
    if PickIndex(d, now, cpu).Some? {
      ScheduledAffinity(d, cpu, now, x);
    }
  }

  lemma ReadyAffinity(s: Sched, id: EntityId, contract: Option<nat>, now: nat, x: EntityId)
    ensures AffinityKept(s, MadeReady(s, id, contract, now), x)
  {
  }

  lemma WokenAffinity(s: Sched, pid: nat, contract: Option<nat>, now: nat, x: EntityId)
    ensures AffinityKept(s, Woken(s, pid, contract, now), x)
  {
    ReadyAffinity(WithProcess(s, KernelThread(pid), ProcessReady, None), KernelThread(pid), contract, now, x);
  }

  lemma SpawnedAffinity(s: Sched, pid: nat, now: nat, x: EntityId)
    requires KernelThread(pid) !in s.entities
    ensures AffinityKept(s, Spawned(s, pid, now), x)
  {
  }

  lemma CurrentAffinity(s: Sched, cpu: nat, reason: BlockReason, x: EntityId)
    requires cpu < |s.current|
    ensures AffinityKept(s, CurrentBlocked(s, cpu, reason), x) && AffinityKept(s, CurrentTerminated(s, cpu), x)
    ensures AffinityKept(s, CurrentYielded(s, cpu), x)
  {
  }

  lemma NamedAffinity(s: Sched, id: EntityId, cpu: nat, x: EntityId)
    requires cpu < |s.current|
    ensures AffinityKept(s, BlockedEntity(s, id), x) && AffinityKept(s, Published(s, id), x)
            && AffinityKept(s, Saving(s, id), x)
    ensures AffinityKept(s, Yielded(s, cpu, id), x) && AffinityKept(s, Unregistered(s, id), x)
    ensures AffinityKept(s, ForcedRunning(s, cpu, id), x)
  {
  }

  lemma PidAffinity(s: Sched, pid: nat, cpu: nat, x: EntityId)
    requires cpu < |s.current|
    ensures AffinityKept(s, Terminated(s, pid), x) && AffinityKept(s, UserCleared(s, cpu, pid), x)
    ensures AffinityKept(s, UserRegistered(s, pid), x)
  {
  }

  lemma StepAffinity(s: Sched, st: Step, x: EntityId)
    requires Enabled(s, st) && !st.SetAffinity?
    ensures AffinityKept(s, Apply(s, st), x)
  {
    hide AffinityKept, Scheduled, Preempted, UserPopped, CurrentBlocked, Saving, CurrentYielded, CurrentTerminated,
         UserCleared, ForcedRunning, MadeReady, BlockedEntity, Published, Yielded, Unregistered, Spawned, Woken,
         Terminated, UserRegistered;
    match st
    case Schedule(cpu, now) => ScheduledAffinity(s, cpu, now, x);
    case PopUser(cpu) => ScheduledAffinity(s, cpu, 0, x);
    case Preempt(cpu, now) => PreemptedAffinity(s, s.current[cpu].value, cpu, now, x);
    case MakeReady(id, contract, now) => ReadyAffinity(s, id, contract, now, x);
    case Wake(pid, contract, now) => WokenAffinity(s, pid, contract, now, x);
    case WakeIo(pid, token, now) => IoAffinity(s, pid, token, now, x);
    case Spawn(pid, now) => SpawnedAffinity(s, pid, now, x);
    case BlockCurrent(cpu, reason) => CurrentAffinity(s, cpu, reason, x);
    case TerminateCurrent(cpu) => CurrentAffinity(s, cpu, WaitingForEvent, x);
    case YieldCurrent(cpu) => CurrentAffinity(s, cpu, WaitingForEvent, x);
    case Block(id) => NamedAffinity(s, id, 0, x);
    case Publish(id) => NamedAffinity(s, id, 0, x);
    case BeginSave(cpu) => NamedAffinity(s, s.current[cpu].value, 0, x);
    case Yield(cpu, id) => NamedAffinity(s, id, cpu, x);
    case Unregister(id) => NamedAffinity(s, id, 0, x);
    case SetRunning(cpu, id) => NamedAffinity(s, id, cpu, x);
    case Terminate(pid) => PidAffinity(s, pid, 0, x);
    case ClearUser(cpu, pid) => PidAffinity(s, pid, cpu, x);
    case RegisterUser(pid) => PidAffinity(s, pid, 0, x);
  }

  lemma IoAffinity(s: Sched, pid: nat, token: nat, now: nat, x: EntityId)
    ensures AffinityKept(s, IoWoken(s, pid, token, now), x)
  {
    WokenAffinity(s, pid, None, now, x);
  }

  // -------------------------------------------------------------- bounded waiting

  lemma {:induction false} BeforeIsIn(q: seq<EntityId>, id: EntityId, x: EntityId)
    requires x in BeforeOf(q, id)
    ensures x in q && x != id
  {
    if q != [] && q[0] != id && x != q[0] {
      BeforeIsIn(q[1..], id, x);
    }
  }

  lemma {:induction false} BeforeAppend(q: seq<EntityId>, y: EntityId, id: EntityId)
    requires id in q
    ensures BeforeOf(q + [y], id) == BeforeOf(q, id)
  {
    if q[0] != id {
      assert (q + [y])[1..] == q[1..] + [y];
      BeforeAppend(q[1..], y, id);
    }
  }

  lemma MovedBefore(s: Sched, t: Sched, id: EntityId, x: EntityId)
    requires NoDuplicates(s.queue) && id in s.queue && QueueMoved(s, t, id) && x in BeforeOf(t.queue, id)
    ensures x in s.queue
  {
    BeforeIsIn(t.queue, id, x);
    if y :| y != id && t.queue == Removed(s.queue, y) {
      RemovedMembers(s.queue, y, x);
    } else if y :| t.queue == Enqueued(s.queue, y) {
      if y !in s.queue {
        BeforeAppend(s.queue, y, id);
        BeforeIsIn(s.queue, id, x);
      }
    }
  }

  /** Before `id`, the step changed nobody's eligibility. */
  lemma SameEligibility(s: Sched, st: Step, cpu: nat, id: EntityId)
    requires SchedInv(s) && Enabled(s, st) && !st.SetAffinity? && id in s.queue && id in Apply(s, st).queue
    ensures var t := Apply(s, st); Ahead(t, t.queue, cpu, id) == Ahead(s, t.queue, cpu, id)
  {
    var t := Apply(s, st);
    StepInv(s, st);
    StepQueue(s, st, id);
    forall x | x in t.queue && x in BeforeOf(t.queue, id)
      ensures EligibleId(s, x, cpu) == EligibleId(t, x, cpu)
    {
      MovedBefore(s, t, id, x);
      StepAffinity(s, st, x);
      QueuedIsKnown(s, x);
      QueuedIsKnown(t, x);
    }
    AheadSame(s, t, t.queue, cpu, id);
  }

  lemma QueuedIsKnown(s: Sched, x: EntityId)
    requires SchedInv(s) && x in s.queue
    ensures x in s.entities
  {
    assert EntityOk(s, x);
  }

  /** No step puts an entry before one that is queued. */
  lemma NeverOvertaken(s: Sched, st: Step, cpu: nat, id: EntityId)
    requires SchedInv(s) && Enabled(s, st) && !st.SetAffinity? && id in s.queue && id in Apply(s, st).queue
    ensures var t := Apply(s, st); Ahead(t, t.queue, cpu, id) <= Ahead(s, s.queue, cpu, id)
  {
    hide SchedInv, Enabled, Apply, QueueMoved;
    SameEligibility(s, st, cpu, id);
    StepQueue(s, st, id);
    QueueIsSet(s);
    MovedAhead(s, Apply(s, st), cpu, id);
  }

  lemma QueueIsSet(s: Sched)
    requires SchedInv(s)
    ensures NoDuplicates(s.queue)
  {
  }

  /** A pick on `cpu` from entries of the kind of `id`; user processes are also picked on their own. */
  predicate FairDispatch(st: Step, cpu: nat, id: EntityId) {
    (st.Schedule? || st.Preempt? || (st.PopUser? && id.UserProcess?)) && st.cpu == cpu
  }

  /** No overdue contract decides the pick. */
  ghost predicate Undue(s: Sched, st: Step, cpu: nat) {
    (st.Schedule? || st.Preempt?) && st.cpu == cpu ==> NoneOverdue(s, st.now, cpu)
  }

  lemma FirstIsBefore(s: Sched, cpu: nat, now: nat, id: EntityId)
    requires NoDuplicates(s.queue) && cpu < |s.current| && id in s.queue && EligibleId(s, id, cpu)
            && NoneOverdue(s, now, cpu)
    requires id in Scheduled(s, cpu, now).queue
    ensures Ahead(s, Scheduled(s, cpu, now).queue, cpu, id) + 1 == Ahead(s, s.queue, cpu, id)
  {
    PickIs(s, now, cpu);
    var j :| 0 <= j < |s.queue| && s.queue[j] == id;
    assert Eligible(s, j, cpu);
    var k := PickIndex(s, now, cpu).value;
    TakenIsGone(s.queue, k, id);
    AheadRemoveAt(s, s.queue, k, cpu, id);
  }

  /** Displacing the interrupted entity changes neither the queue nor what is eligible in it. */
  lemma DisplacedQueue(s: Sched, x: EntityId, cpu: nat, now: nat, id: EntityId)
    requires SchedInv(s) && cpu < |s.current| && s.current[cpu] == Some(x) && id in s.queue
    requires EligibleId(s, id, cpu) && NoneOverdue(s, now, cpu)
    ensures var d := Displaced(s, x, cpu);
            && d.queue == s.queue && EligibleId(d, id, cpu) && NoneOverdue(d, now, cpu)
            && forall q, y :: Ahead(d, q, cpu, y) == Ahead(s, q, cpu, y)
  {
    var d := Displaced(s, x, cpu);
    IsCurrentAt(s, cpu);
    assert EntityOk(s, x);
    forall k: nat
      ensures !Overdue(d, k, now, cpu)
    {
      assert !Overdue(s, k, now, cpu);
    }
    forall q, y
      ensures Ahead(d, q, cpu, y) == Ahead(s, q, cpu, y)
    {
      AheadSame(s, d, q, cpu, y);
    }
  }

  lemma PreemptIsBefore(s: Sched, x: EntityId, cpu: nat, now: nat, id: EntityId)
    requires SchedInv(s) && cpu < |s.current| && s.current[cpu] == Some(x) && id in s.queue
    requires EligibleId(s, id, cpu) && NoneOverdue(s, now, cpu) && id in Preempted(s, x, cpu, now).queue
    ensures Ahead(s, Preempted(s, x, cpu, now).queue, cpu, id) + 1 == Ahead(s, s.queue, cpu, id)
  {
    DisplacedQueue(s, x, cpu, now, id);
    var d := Displaced(s, x, cpu);
    PickIs(d, now, cpu);
    var j :| 0 <= j < |d.queue| && d.queue[j] == id;
    assert Eligible(d, j, cpu);
    FirstIsBefore(d, cpu, now, id);
  }

  lemma {:induction false} FirstUserLeast(s: Sched, cpu: nat, from: nat, j: nat)
    requires from <= j < |s.queue| && s.queue[j].UserProcess? && Eligible(s, j, cpu)
    ensures FirstUser(s, cpu, from).Some? && FirstUser(s, cpu, from).value <= j
    decreases j - from
  {
    if from < j {
      FirstUserLeast(s, cpu, from + 1, j);
    }
  }

  lemma PopIsBefore(s: Sched, cpu: nat, id: EntityId)
    requires NoDuplicates(s.queue) && cpu < |s.current| && id in s.queue && EligibleId(s, id, cpu) && id.UserProcess?
    requires id in UserPopped(s, cpu).queue
    ensures Ahead(s, UserPopped(s, cpu).queue, cpu, id) + 1 == Ahead(s, s.queue, cpu, id)
  {
    var j :| 0 <= j < |s.queue| && s.queue[j] == id;
    FirstUserLeast(s, cpu, 0, j);
    var k := FirstUser(s, cpu, 0).value;
    TakenIsGone(s.queue, k, id);
    AheadRemoveAt(s, s.queue, k, cpu, id);
  }

  lemma DispatchAhead(s: Sched, st: Step, cpu: nat, id: EntityId)
    requires SchedInv(s) && Enabled(s, st) && id in s.queue && id in Apply(s, st).queue && EligibleId(s, id, cpu)
    requires FairDispatch(st, cpu, id) && Undue(s, st, cpu)
    ensures Ahead(s, Apply(s, st).queue, cpu, id) + 1 == Ahead(s, s.queue, cpu, id)
  {
    QueueIsSet(s);
    hide Scheduled, Preempted, UserPopped;
    match st
    case Schedule(_, now) => FirstIsBefore(s, cpu, now, id);
    case Preempt(_, now) => PreemptIsBefore(s, s.current[cpu].value, cpu, now, id);
    case PopUser(_) => PopIsBefore(s, cpu, id);
  }

  /** Each dispatch on its CPU brings a waiting entity one place forward. */
  lemma DispatchAdvances(s: Sched, st: Step, cpu: nat, id: EntityId)
    requires SchedInv(s) && Enabled(s, st) && id in s.queue && id in Apply(s, st).queue && EligibleId(s, id, cpu)
    requires FairDispatch(st, cpu, id) && Undue(s, st, cpu)
    ensures var t := Apply(s, st); Ahead(t, t.queue, cpu, id) + 1 == Ahead(s, s.queue, cpu, id)
  {
    hide SchedInv, Enabled, Apply;
    SameEligibility(s, st, cpu, id);
    DispatchAhead(s, st, cpu, id);
  }

  lemma ScheduledTakes(s: Sched, cpu: nat, now: nat, id: EntityId)
    requires NoDuplicates(s.queue) && cpu < |s.current| && id in s.queue && id !in Scheduled(s, cpu, now).queue
    ensures Scheduled(s, cpu, now).current[cpu] == Some(id)
  {
    var k := PickIndex(s, now, cpu).value;
    RemovedAtMembers(s.queue, k, id);
  }

  lemma PreemptedTakes(s: Sched, x: EntityId, cpu: nat, now: nat, id: EntityId)
    requires NoDuplicates(s.queue) && cpu < |s.current| && id in s.queue && id !in Preempted(s, x, cpu, now).queue
    ensures Preempted(s, x, cpu, now).current[cpu] == Some(id)
  {
    hide Scheduled;
    var d := Displaced(s, x, cpu);
    assert d.queue == s.queue && |d.current| == |s.current|;
    ScheduledTakes(d, cpu, now, id);
  }

  lemma PoppedTakes(s: Sched, cpu: nat, id: EntityId)
    requires NoDuplicates(s.queue) && cpu < |s.current| && id in s.queue && id !in UserPopped(s, cpu).queue
    ensures UserPopped(s, cpu).current[cpu] == Some(id)
  {
    var k := FirstUser(s, cpu, 0).value;
    RemovedAtMembers(s.queue, k, id);
  }

  /** What a dispatch takes off the queue runs on its CPU. */
  lemma TakenIsCurrent(s: Sched, st: Step, cpu: nat, id: EntityId)
    requires SchedInv(s) && Enabled(s, st) && id in s.queue && id !in Apply(s, st).queue && FairDispatch(st, cpu, id)
    ensures cpu < |Apply(s, st).current| && Apply(s, st).current[cpu] == Some(id)
  {
    StepInv(s, st);
    QueueIsSet(s);
    hide Scheduled, Preempted, UserPopped;
    match st
    case Schedule(_, now) => ScheduledTakes(s, cpu, now, id);
    case Preempt(_, now) => PreemptedTakes(s, s.current[cpu].value, cpu, now, id);
    case PopUser(_) => PoppedTakes(s, cpu, id);
  }

  /** With nothing eligible before it, the next dispatch hands it to the CPU. */
  lemma HeadIsDispatched(s: Sched, st: Step, cpu: nat, id: EntityId)
    requires SchedInv(s) && Enabled(s, st) && id in s.queue && EligibleId(s, id, cpu)
    requires FairDispatch(st, cpu, id) && Undue(s, st, cpu) && Ahead(s, s.queue, cpu, id) == 0
    ensures cpu < |Apply(s, st).current| && Apply(s, st).current[cpu] == Some(id)
  {
    hide SchedInv, Enabled, Apply;
    assert id !in Apply(s, st).queue by {
      if id in Apply(s, st).queue {
        DispatchAdvances(s, st, cpu, id);
      }
    }
    TakenIsCurrent(s, st, cpu, id);
  }

  /** A kernel thread is never taken by a pick among user processes, whatever its place. */
  lemma PopPassesThreads(s: Sched, cpu: nat, pid: nat)
    requires NoDuplicates(s.queue) && cpu < |s.current| && KernelThread(pid) in s.queue
    ensures KernelThread(pid) in UserPopped(s, cpu).queue
  {
    var k := FirstUser(s, cpu, 0);
    if k.Some? {
      RemovedAtMembers(s.queue, k.value, KernelThread(pid));
    }
  }

  predicate StillWaiting(s: Sched, steps: seq<Step>, id: EntityId)
    requires EnabledRun(s, steps)
    decreases |steps|
  {
    id in s.queue && (steps == [] || StillWaiting(Apply(s, steps[0]), steps[1..], id))
  }

  /** Affinities stay, and no overdue contract intervenes on `cpu`. */
  ghost predicate Ordinary(s: Sched, steps: seq<Step>, cpu: nat)
    requires EnabledRun(s, steps)
    decreases |steps|
  {
    steps == [] || (!steps[0].SetAffinity? && Undue(s, steps[0], cpu) && Ordinary(Apply(s, steps[0]), steps[1..], cpu))
  }

  /** How many steps of a run pick, on `cpu`, among entries of the kind of `id`. */
  function Dispatches(steps: seq<Step>, cpu: nat, id: EntityId): nat {
    if steps == [] then 0 else One(FairDispatch(steps[0], cpu, id)) + Dispatches(steps[1..], cpu, id)
  }

  lemma WaitStep(s: Sched, st: Step, cpu: nat, id: EntityId)
    requires SchedInv(s) && Enabled(s, st) && !st.SetAffinity? && Undue(s, st, cpu)
    requires id in s.queue && id in Apply(s, st).queue && EligibleId(s, id, cpu)
    ensures var t := Apply(s, st);
            && SchedInv(t) && EligibleId(t, id, cpu)
            && Ahead(t, t.queue, cpu, id) + One(FairDispatch(st, cpu, id)) <= Ahead(s, s.queue, cpu, id)
  {
    hide SchedInv, Enabled, Apply;
    StepInv(s, st);
    StepAffinity(s, st, id);
    QueuedIsKnown(s, id);
    QueuedIsKnown(Apply(s, st), id);
    if FairDispatch(st, cpu, id) {
      DispatchAdvances(s, st, cpu, id);
    } else {
      NeverOvertaken(s, st, cpu, id);
    }
  }

  /**
   An entity that is still queued has seen no more dispatches on a CPU that could
   take it than there were eligible entries before it.
   */
  lemma {:induction false} BoundedWaiting(s: Sched, steps: seq<Step>, cpu: nat, id: EntityId)
    requires SchedInv(s) && EnabledRun(s, steps) && StillWaiting(s, steps, id) && Ordinary(s, steps, cpu)
    requires EligibleId(s, id, cpu)
    ensures var t := Run(s, steps);
            Dispatches(steps, cpu, id) + Ahead(t, t.queue, cpu, id) <= Ahead(s, s.queue, cpu, id)
    decreases |steps|
  {
    if steps != [] {
      WaitStep(s, steps[0], cpu, id);
      BoundedWaiting(Apply(s, steps[0]), steps[1..], cpu, id);
    }
  }

  /** The run takes the entity off the queue, and if a pick on `cpu` does so, it runs there. */
  predicate Leaves(s: Sched, steps: seq<Step>, cpu: nat, id: EntityId)
    requires EnabledRun(s, steps)
    decreases |steps|
  {
    steps != [] &&
    (var t := Apply(s, steps[0]);
     if id in t.queue then Leaves(t, steps[1..], cpu, id)
     else FairDispatch(steps[0], cpu, id) ==> cpu < |t.current| && t.current[cpu] == Some(id))
  }

  /**
   Bounded waiting: with k eligible entries before it, an entity has left the
   queue by the (k + 1)st dispatch on its CPU, and runs there if a dispatch on
   that CPU is what took it.
   */
  lemma {:induction false} DispatchedWithin(s: Sched, steps: seq<Step>, cpu: nat, id: EntityId)
    requires SchedInv(s) && EnabledRun(s, steps) && Ordinary(s, steps, cpu) && id in s.queue && EligibleId(s, id, cpu)
    requires Ahead(s, s.queue, cpu, id) < Dispatches(steps, cpu, id)
    ensures Leaves(s, steps, cpu, id)
    decreases |steps|
  {
    hide SchedInv, Enabled, Apply, Ahead, FairDispatch, Undue;
    if id in Apply(s, steps[0]).queue {
      WaitStep(s, steps[0], cpu, id);
      DispatchedWithin(Apply(s, steps[0]), steps[1..], cpu, id);
    } else if FairDispatch(steps[0], cpu, id) {
      TakenIsCurrent(s, steps[0], cpu, id);
    }
  }
}
