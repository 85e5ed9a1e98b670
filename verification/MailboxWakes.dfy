/**
 Which completions wake their thread. A completion that is posted before its thread
 blocks stays in the mailbox, and wakes the thread once it has blocked, as long as
 the thread waits for no other block I/O meanwhile; a completion offered while its
 thread is gone or awaits another token is taken and wakes nobody.
 */
module MailboxWakes {
  import opened Base
  import opened SchedulerSpec
  import opened SchedulerSafety
  import opened SchedulerRuns
  import opened IoMailbox

  // --------------------------------------------------------- one scheduler transition

  /** The thread awaits this token and runs nowhere. */
  ghost predicate Waits(s: Sched, pid: nat, token: nat) {
    && AwaitsIo(s, pid, token) && KernelThread(pid) in s.entities && s.entities[KernelThread(pid)].state != Running
    && !IsCurrent(s, KernelThread(pid))
  }

  /** A thread that was queued although it waits, by a yield in its name, is picked. */
  predicate PickedAnyway(s: Sched, t: Sched, pid: nat) {
    KernelThread(pid) in s.queue && IsCurrent(t, KernelThread(pid))
  }

  /** The wait goes on, or the thread is ready again or picked, or it is gone. */
  ghost predicate Followed(s: Sched, t: Sched, pid: nat, token: nat) {
    pid in t.processes ==> AwaitsIo(t, pid, token) || Roused(t, pid) || PickedAnyway(s, t, pid)
  }

  lemma AwaitingWaits(s: Sched, pid: nat, token: nat)
    requires SchedInv(s) && AwaitsIo(s, pid, token)
    ensures Waits(s, pid, token)
  {
    assert ProcessOk(s, pid) && EntityOk(s, KernelThread(pid));
  }

  lemma PickedFollows(s: Sched, cpu: nat, now: nat, pid: nat, token: nat)
    requires cpu < |s.current| && Waits(s, pid, token)
    ensures Followed(s, Scheduled(s, cpu, now), pid, token) && Followed(s, UserPopped(s, cpu), pid, token)
  {
    var k := PickIndex(s, now, cpu);
    if k.Some? && s.queue[k.value] == KernelThread(pid) {
      assert Scheduled(s, cpu, now).current[cpu] == Some(KernelThread(pid));
    }
  }

  lemma PreemptedFollows(s: Sched, x: EntityId, cpu: nat, now: nat, pid: nat, token: nat)
    requires cpu < |s.current| && s.current[cpu] == Some(x) && Waits(s, pid, token)
    ensures Followed(s, Preempted(s, x, cpu, now), pid, token)
  {
    hide Scheduled;
    var d := Displaced(s, x, cpu);
    IsCurrentAt(s, cpu);
    DisplacedWaits(s, x, cpu, pid, token);
    assert d.queue == s.queue;
    if PickIndex(d, now, cpu).Some? {
      PickedFollows(d, cpu, now, pid, token);
    }
  }

  lemma DisplacedWaits(s: Sched, x: EntityId, cpu: nat, pid: nat, token: nat)
    requires cpu < |s.current| && s.current[cpu] == Some(x) && x != KernelThread(pid) && Waits(s, pid, token)
    ensures |Displaced(s, x, cpu).current| == |s.current| && Waits(Displaced(s, x, cpu), pid, token)
  {
    var d := Displaced(s, x, cpu);
    assert d.current == s.current[cpu := None];
    forall c | 0 <= c < |d.current|
      ensures d.current[c] != Some(KernelThread(pid))
    {
      assert s.current[c] in s.current;
    }
  }

  lemma ReadyFollows(s: Sched, x: EntityId, contract: Option<nat>, now: nat, pid: nat, token: nat)
    requires Waits(s, pid, token)
    ensures Followed(s, MadeReady(s, x, contract, now), pid, token)
  {
  }

  lemma WokenFollows(s: Sched, other: nat, contract: Option<nat>, now: nat, pid: nat, token: nat)
    requires Waits(s, pid, token)
    ensures Followed(s, Woken(s, other, contract, now), pid, token)
  {
  }

  lemma SpawnedFollows(s: Sched, other: nat, now: nat, pid: nat, token: nat)
    requires Waits(s, pid, token) && other != pid
    ensures Followed(s, Spawned(s, other, now), pid, token)
  {
  }

  lemma NamedFollows(s: Sched, x: EntityId, cpu: nat, pid: nat, token: nat)
    requires cpu < |s.current| && Waits(s, pid, token)
    ensures Followed(s, BlockedEntity(s, x), pid, token) && Followed(s, ForcedRunning(s, cpu, x), pid, token)
    ensures Followed(s, Published(s, x), pid, token) && Followed(s, Unregistered(s, x), pid, token)
    ensures Followed(s, Yielded(s, cpu, x), pid, token) && Followed(s, Saving(s, x), pid, token)
  {
  }

  lemma CurrentFollows(s: Sched, cpu: nat, reason: BlockReason, pid: nat, token: nat)
    requires cpu < |s.current| && s.current[cpu] != Some(KernelThread(pid)) && Waits(s, pid, token)
    ensures Followed(s, CurrentBlocked(s, cpu, reason), pid, token) && Followed(s, CurrentYielded(s, cpu), pid, token)
    ensures Followed(s, CurrentTerminated(s, cpu), pid, token)
  {
  }

  lemma PidFollows(s: Sched, other: nat, cpu: nat, pid: nat, token: nat)
    requires cpu < |s.current| && Waits(s, pid, token)
    ensures Followed(s, Terminated(s, other), pid, token) && Followed(s, UserCleared(s, cpu, other), pid, token)
    ensures Followed(s, UserRegistered(s, other), pid, token)
  {
  }

  predicate OfCpu(st: Step) {
    || st.Schedule? || st.PopUser? || st.Preempt? || st.BlockCurrent? || st.YieldCurrent? || st.TerminateCurrent?
    || st.BeginSave?
  }

  lemma CpuStepFollows(s: Sched, st: Step, pid: nat, token: nat)
    requires Enabled(s, st) && Waits(s, pid, token) && OfCpu(st)
    ensures Followed(s, Apply(s, st), pid, token)
  {
    assert !IsCurrent(s, KernelThread(pid));
    hide Waits, Followed, Scheduled, Preempted, UserPopped, CurrentBlocked, Saving, CurrentYielded, CurrentTerminated;
    match st
    case Schedule(cpu, now) => PickedFollows(s, cpu, now, pid, token);
    case PopUser(cpu) => PickedFollows(s, cpu, 0, pid, token);
    case Preempt(cpu, now) => PreemptedFollows(s, s.current[cpu].value, cpu, now, pid, token);
    case BlockCurrent(cpu, reason) => CurrentFollows(s, cpu, reason, pid, token);
    case YieldCurrent(cpu) => CurrentFollows(s, cpu, WaitingForEvent, pid, token);
    case TerminateCurrent(cpu) => CurrentFollows(s, cpu, WaitingForEvent, pid, token);
    case BeginSave(cpu) => NamedFollows(s, s.current[cpu].value, 0, pid, token);
  }

  predicate OfPid(st: Step) {
    || st.Wake? || st.WakeIo? || st.Spawn? || st.Terminate? || st.ClearUser? || st.RegisterUser?
  }

  lemma PidStepFollows(s: Sched, st: Step, pid: nat, token: nat)
    requires Enabled(s, st) && Waits(s, pid, token) && OfPid(st)
    ensures Followed(s, Apply(s, st), pid, token)
  {
    assert pid in s.processes;
    hide Waits, Followed, UserCleared, Spawned, Woken, Terminated, UserRegistered;
    match st
    case Wake(other, contract, now) => WokenFollows(s, other, contract, now, pid, token);
    case WakeIo(other, t, now) => IoFollows(s, other, t, now, pid, token);
    case Spawn(other, now) => SpawnedFollows(s, other, now, pid, token);
    case Terminate(other) => PidFollows(s, other, 0, pid, token);
    case ClearUser(cpu, other) => PidFollows(s, other, cpu, pid, token);
    case RegisterUser(other) => PidFollows(s, other, 0, pid, token);
  }

  lemma NamedStepFollows(s: Sched, st: Step, pid: nat, token: nat)
    requires Enabled(s, st) && Waits(s, pid, token) && !OfCpu(st) && !OfPid(st)
    ensures Followed(s, Apply(s, st), pid, token)
  {
    hide Waits, Followed, ForcedRunning, MadeReady, BlockedEntity, Published, Yielded, Unregistered, Bound;
    match st
    case MakeReady(x, contract, now) => ReadyFollows(s, x, contract, now, pid, token);
    case Block(x) => NamedFollows(s, x, 0, pid, token);
    case Publish(x) => NamedFollows(s, x, 0, pid, token);
    case Yield(cpu, x) => NamedFollows(s, x, cpu, pid, token);
    case Unregister(x) => NamedFollows(s, x, 0, pid, token);
    case SetRunning(cpu, x) => NamedFollows(s, x, cpu, pid, token);
    case SetAffinity(x, affinity) => BoundFollows(s, x, affinity, pid, token);
  }

  lemma StepFollows(s: Sched, st: Step, pid: nat, token: nat)
    requires SchedInv(s) && Enabled(s, st) && AwaitsIo(s, pid, token)
    ensures Followed(s, Apply(s, st), pid, token)
  {
    hide SchedInv, Enabled, Apply, Waits, Followed;
    AwaitingWaits(s, pid, token);
    if OfCpu(st) {
      CpuStepFollows(s, st, pid, token);
    } else if OfPid(st) {
      PidStepFollows(s, st, pid, token);
    } else {
      NamedStepFollows(s, st, pid, token);
    }
  }

  lemma BoundFollows(s: Sched, x: EntityId, affinity: Option<nat>, pid: nat, token: nat)
    requires Waits(s, pid, token)
    ensures Followed(s, Bound(s, x, affinity), pid, token)
  {
  }

  lemma IoFollows(s: Sched, other: nat, t: nat, now: nat, pid: nat, token: nat)
    requires Waits(s, pid, token)
    ensures Followed(s, IoWoken(s, other, t, now), pid, token)
  {
    hide Woken;
    WokenFollows(s, other, None, now, pid, token);
  }

  // ------------------------------------------------------------------ acceptance

  /** The step hands record `r` to the scheduler. */
  predicate Takes(m: Mailbox, st: MailStep, r: nat) {
    Accepts(m, st) && m.drainer.slot < |m.holder| && m.holder[m.drainer.slot] == Some(r)
  }

  /** The thread awaits the completion of some other block I/O. */
  ghost predicate AwaitsOther(s: Sched, pid: nat, token: nat) {
    exists t :: t != token && AwaitsIo(s, pid, t)
  }

  /**
   A completion that is taken wakes nobody if and only if its thread is gone or
   awaits another token; otherwise its thread is roused.
   */
  lemma TakenRouses(m: Mailbox, st: MailStep, r: nat)
    requires MailInv(m) && MailEnabled(m, st) && Takes(m, st, r)
    ensures r in m.records
    ensures var c, n := m.records[r].completion, MailApply(m, st);
            && (n.sched == m.sched <==> c.pid !in m.sched.processes || AwaitsOther(m.sched, c.pid, c.token))
            && (n.sched != m.sched ==> AwaitsIo(m.sched, c.pid, c.token) && Roused(n.sched, c.pid))
  {
    NeverMixed(m, st);
    var c := m.records[r].completion;
    if AwaitsIo(m.sched, c.pid, c.token) {
      AwaitedRouses(m.sched, c.pid, c.token, st.now);
    } else if c.pid in m.sched.processes {
      assert AwaitsIo(m.sched, c.pid, m.sched.processes[c.pid].reason.value.token);
    }
  }

  /** The thread is registered and not blocked on block I/O. */
  ghost predicate NotYetBlocked(s: Sched, pid: nat) {
    pid in s.processes && forall t :: !AwaitsIo(s, pid, t)
  }

  /** A completion is left in its slot if and only if its thread is registered and has not blocked on block I/O. */
  lemma EarlyIsKept(m: Mailbox, now: nat, r: nat)
    requires MailInv(m) && MailEnabled(m, Decide(now)) && r in m.records
    requires m.records[r] == Record(Completion(m.drainer.pid, m.drainer.token), Posted(m.drainer.slot))
    ensures var n := MailApply(m, Decide(now));
            && r in n.records
            && (n.records[r] == m.records[r] <==> NotYetBlocked(m.sched, m.drainer.pid))
            && (n.records[r] == m.records[r] ==> n.slots == m.slots && n.sched == m.sched)
            && (n.records[r] != m.records[r] ==> n.records[r].phase.Taken?)
  {
    assert RecordOk(m, r) && SlotOk(m, m.drainer.slot);
    var pid := m.drainer.pid;
    if AcceptsIo(m.sched, pid) && pid in m.sched.processes {
      assert AwaitsIo(m.sched, pid, m.sched.processes[pid].reason.value.token);
    }
  }

  // ------------------------------------------------------------------------ runs

  /** The thread is registered, and if it waits for block I/O, then for this one. */
  ghost predicate Steady(s: Sched, pid: nat, token: nat) {
    pid in s.processes && !AwaitsOther(s, pid, token)
  }

  ghost predicate SteadyRun(m: Mailbox, steps: seq<MailStep>, pid: nat, token: nat)
    requires MailRun(m, steps)
    decreases |steps|
  {
    Steady(m.sched, pid, token) && (steps == [] || SteadyRun(MailApply(m, steps[0]), steps[1..], pid, token))
  }

  /** The step ends the thread's wait: it is ready again, or it was queued anyway and is picked. */
  predicate Answers(m: Mailbox, n: Mailbox, pid: nat, token: nat) {
    AwaitsIo(m.sched, pid, token) && (Roused(n.sched, pid) || PickedAnyway(m.sched, n.sched, pid))
  }

  predicate Answered(m: Mailbox, steps: seq<MailStep>, pid: nat, token: nat)
    requires MailRun(m, steps)
    decreases |steps|
  {
    && steps != []
    && (|| Answers(m, MailApply(m, steps[0]), pid, token)
        || Answered(MailApply(m, steps[0]), steps[1..], pid, token))
  }

  ghost predicate InPlace(m: Mailbox, r: nat, rec: Record) {
    r in m.records && m.records[r] == rec && rec.phase.Posted?
  }

  /** A posted completion of a steady thread is taken only by a step that finds the thread awaiting it and rouses it. */
  lemma TakenOnlyWhenAwaited(m: Mailbox, st: MailStep, r: nat, rec: Record)
    requires MailInv(m) && MailEnabled(m, st) && InPlace(m, r, rec) && Takes(m, st, r)
    requires Steady(m.sched, rec.completion.pid, rec.completion.token)
    ensures AwaitsIo(m.sched, rec.completion.pid, rec.completion.token)
            && Roused(MailApply(m, st).sched, rec.completion.pid)
  {
    TakenRouses(m, st, r);
  }

  lemma WaitGoesOn(m: Mailbox, st: MailStep, pid: nat, token: nat)
    requires MailInv(m) && MailEnabled(m, st) && AwaitsIo(m.sched, pid, token)
            && pid in MailApply(m, st).sched.processes
    ensures AwaitsIo(MailApply(m, st).sched, pid, token) || Answers(m, MailApply(m, st), pid, token)
  {
    match st
    case SchedulerStep(step) => StepFollows(m.sched, step, pid, token);
    case Decide(now) =>
      AwaitingWaits(m.sched, pid, token);
      IoFollows(m.sched, m.drainer.pid, m.drainer.token, now, pid, token);
    case _ =>
  }

  lemma StepKeeps(m: Mailbox, st: MailStep, r: nat, rec: Record)
    requires MailInv(m) && MailEnabled(m, st) && InPlace(m, r, rec)
    requires Steady(m.sched, rec.completion.pid, rec.completion.token)
    requires rec.completion.pid in MailApply(m, st).sched.processes
    ensures var c, n := rec.completion, MailApply(m, st);
            || Answers(m, n, c.pid, c.token)
            || (InPlace(n, r, rec) && (AwaitsIo(m.sched, c.pid, c.token) ==> AwaitsIo(n.sched, c.pid, c.token)))
  {
    hide MailInv, MailApply, Steady, AwaitsIo, AcceptsIo;
    NeverLost(m, st, r);
    if Takes(m, st, r) {
      TakenOnlyWhenAwaited(m, st, r, rec);
    } else if AwaitsIo(m.sched, rec.completion.pid, rec.completion.token) {
      WaitGoesOn(m, st, rec.completion.pid, rec.completion.token);
    }
  }

  /** Over a run the completion stays in place and a wait for it goes on, unless the wait is answered. */
  lemma {:induction false} RunKeeps(m: Mailbox, steps: seq<MailStep>, r: nat, rec: Record)
    requires MailInv(m) && MailRun(m, steps) && InPlace(m, r, rec)
    requires SteadyRun(m, steps, rec.completion.pid, rec.completion.token)
    ensures var c, n := rec.completion, MailAfter(m, steps);
            || Answered(m, steps, c.pid, c.token)
            || (InPlace(n, r, rec) && (AwaitsIo(m.sched, c.pid, c.token) ==> AwaitsIo(n.sched, c.pid, c.token)))
    decreases |steps|
  {
    hide MailInv, MailEnabled, MailApply, InPlace, AwaitsIo, Answers, AwaitsOther;
    if steps != [] {
      var n := MailApply(m, steps[0]);
      StepKeeps(m, steps[0], r, rec);
      MailStepInv(m, steps[0]);
      if !Answers(m, n, rec.completion.pid, rec.completion.token) {
        RunKeeps(n, steps[1..], r, rec);
      }
    }
  }

  lemma {:induction false} RunSplits(m: Mailbox, a: seq<MailStep>, b: seq<MailStep>, pid: nat, token: nat)
    requires MailRun(m, a + b)
    ensures MailRun(m, a) && MailRun(MailAfter(m, a), b) && MailAfter(m, a + b) == MailAfter(MailAfter(m, a), b)
    ensures SteadyRun(m, a + b, pid, token) ==> SteadyRun(m, a, pid, token) && SteadyRun(MailAfter(m, a), b, pid, token)
    ensures Answered(m, a, pid, token) || Answered(MailAfter(m, a), b, pid, token) ==> Answered(m, a + b, pid, token)
    decreases |a|
  {
    hide MailEnabled, MailApply, Steady, Answers;
    if a == [] {
      assert a + b == b;
    } else {
      assert (a + b)[1..] == a[1..] + b;
      RunSplits(MailApply(m, a[0]), a[1..], b, pid, token);
    }
  }

  /** Until it ends, a pass lets no other pass and no other scheduler step in. */
  lemma {:induction false} PassIsClosed(m: Mailbox, pass: seq<MailStep>)
    requires MailRun(m, pass) && !m.drainer.Idle? && forall k | 0 <= k < |pass| :: !pass[k].DrainEnd?
    ensures InPass(pass)
    decreases |pass|
  {
    if pass != [] {
      PassIsClosed(MailApply(m, pass[0]), pass[1..]);
      assert forall k | 0 < k < |pass| :: pass[k] == pass[1..][k - 1];
    }
  }

  lemma EndsAt(m: Mailbox)
    requires MailRun(m, [DrainEnd])
    ensures m.drainer == At(SLOTS)
  {
  }

  lemma PassAnswers(m: Mailbox, pass: seq<MailStep>, r: nat, rec: Record)
    requires MailInv(m) && m.drainer == At(0) && MailRun(m, pass + [DrainEnd]) && InPlace(m, r, rec)
    requires forall k | 0 <= k < |pass| :: !pass[k].DrainEnd?
    requires SteadyRun(m, pass + [DrainEnd], rec.completion.pid, rec.completion.token)
    requires AwaitsIo(m.sched, rec.completion.pid, rec.completion.token)
    ensures Answered(m, pass + [DrainEnd], rec.completion.pid, rec.completion.token)
  {
    hide MailInv, MailApply, MailRun, MailAfter, Steady, SteadyRun, Answers, Answered, InPass;
    RunSplits(m, pass, [DrainEnd], rec.completion.pid, rec.completion.token);
    PassIsClosed(m, pass);
    EndsAt(MailAfter(m, pass));
    PassRouses(m, pass, r);
    RunKeeps(m, pass, r, rec);
  }

  /**
   A thread with one outstanding token is woken, however early its completion was
   posted: from the moment of posting, in any run in which it is registered and
   waits for no other block I/O, if the thread blocks (after `early`) and a full
   drain pass ends after that, then its wait has been answered.
   */
  lemma EarlyStillWakes(m: Mailbox, early: seq<MailStep>, wait: seq<MailStep>, pass: seq<MailStep>, r: nat)
    requires MailInv(m) && r in m.records && m.records[r].phase.Posted?
    requires MailRun(m, early + (wait + ([DrainBegin] + (pass + [DrainEnd]))))
    requires forall k | 0 <= k < |pass| :: !pass[k].DrainEnd?
    requires MailRun(m, early)
    requires var c := m.records[r].completion;
             && SteadyRun(m, early + (wait + ([DrainBegin] + (pass + [DrainEnd]))), c.pid, c.token)
             && AwaitsIo(MailAfter(m, early).sched, c.pid, c.token)
    ensures var c := m.records[r].completion;
            Answered(m, early + (wait + ([DrainBegin] + (pass + [DrainEnd]))), c.pid, c.token)
  {
    hide MailInv, MailApply, Steady, Answers, AwaitsIo, Answered, SteadyRun, MailAfter, MailRun;
    var rec := m.records[r];
    var c, rest := rec.completion, wait + ([DrainBegin] + (pass + [DrainEnd]));
    RunSplits(m, early, rest, c.pid, c.token);
    RunKeeps(m, early, r, rec);
    MailRunInv(m, early);
    if !Answered(m, early, c.pid, c.token) {
      WaitAnswered(MailAfter(m, early), wait, pass, r, rec);
    }
  }

  lemma WaitAnswered(m: Mailbox, wait: seq<MailStep>, pass: seq<MailStep>, r: nat, rec: Record)
    requires MailInv(m) && InPlace(m, r, rec) && MailRun(m, wait + ([DrainBegin] + (pass + [DrainEnd])))
    requires forall k | 0 <= k < |pass| :: !pass[k].DrainEnd?
    requires SteadyRun(m, wait + ([DrainBegin] + (pass + [DrainEnd])), rec.completion.pid, rec.completion.token)
    requires AwaitsIo(m.sched, rec.completion.pid, rec.completion.token)
    ensures Answered(m, wait + ([DrainBegin] + (pass + [DrainEnd])), rec.completion.pid, rec.completion.token)
  {
    hide MailInv, MailApply, Steady, Answers, AwaitsIo, Answered, SteadyRun, MailAfter, MailRun, InPlace;
    var c, last := rec.completion, [DrainBegin] + (pass + [DrainEnd]);
    RunSplits(m, wait, last, c.pid, c.token);
    RunKeeps(m, wait, r, rec);
    MailRunInv(m, wait);
    if !Answered(m, wait, c.pid, c.token) {
      BegunAnswers(MailAfter(m, wait), pass, r, rec);
    }
  }

  lemma BegunAnswers(m: Mailbox, pass: seq<MailStep>, r: nat, rec: Record)
    requires MailInv(m) && InPlace(m, r, rec) && MailRun(m, [DrainBegin] + (pass + [DrainEnd]))
    requires forall k | 0 <= k < |pass| :: !pass[k].DrainEnd?
    requires SteadyRun(m, [DrainBegin] + (pass + [DrainEnd]), rec.completion.pid, rec.completion.token)
    requires AwaitsIo(m.sched, rec.completion.pid, rec.completion.token)
    ensures Answered(m, [DrainBegin] + (pass + [DrainEnd]), rec.completion.pid, rec.completion.token)
  {
    hide MailInv, Steady, Answers, AwaitsIo;
    MailStepInv(m, DrainBegin);
    assert ([DrainBegin] + (pass + [DrainEnd]))[1..] == pass + [DrainEnd];
    PassAnswers(MailApply(m, DrainBegin), pass, r, rec);
  }

  // ------------------------------------------------------------- the wrong token

  lemma StepThenRun(m: Mailbox, st: MailStep, rest: seq<MailStep>)
    requires MailEnabled(m, st) && MailRun(MailApply(m, st), rest)
    ensures MailRun(m, [st] + rest) && MailAfter(m, [st] + rest) == MailAfter(MailApply(m, st), rest)
  {
    assert ([st] + rest)[1..] == rest;
  }

  /** A completion posted in an otherwise empty mailbox. */
  function PostSteps(c: Completion): seq<MailStep> {
    [Post(0, c), Claim(0), StoreToken(0)]
  }

  lemma PostedAlone(s: Sched, c: Completion)
    requires SchedInv(s) && c.pid != 0 && c.token != 0
    ensures MailRun(EmptyMailbox(s), PostSteps(c))
    ensures var m := MailAfter(EmptyMailbox(s), PostSteps(c));
            && m.sched == s && m.drainer.Idle? && |m.slots| == SLOTS && |m.holder| == SLOTS
            && m.slots[0] == IoMailbox.Slot(c.pid, c.token) && m.holder[0] == Some(0)
            && 0 in m.records && m.records[0] == Record(c, Posted(0))
  {
    var m0 := EmptyMailbox(s);
    var m1 := MailApply(m0, Post(0, c));
    var m2 := MailApply(m1, Claim(0));
    var m3 := MailApply(m2, StoreToken(0));
    assert MailRun(m3, []) && MailAfter(m3, []) == m3;
    hide MailRun, MailAfter;
    StepThenRun(m2, StoreToken(0), []);
    StepThenRun(m1, Claim(0), [StoreToken(0)] + []);
    StepThenRun(m0, Post(0, c), [Claim(0)] + ([StoreToken(0)] + []));
    assert PostSteps(c) == [Post(0, c)] + ([Claim(0)] + ([StoreToken(0)] + []));
  }

  /** The thread on CPU 0 blocks on a token, and the drainer comes to slot 0. */
  function OfferSteps(token: nat, now: nat): seq<MailStep> {
    [SchedulerStep(BlockCurrent(0, WaitingForBlockIo(token))), DrainBegin, LoadPid, LoadToken, Decide(now)]
  }

  lemma WrongTokenTaken(m: Mailbox, pid: nat, awaited: nat, token: nat, now: nat)
    requires SchedInv(m.sched) && m.sched.current[0] == Some(KernelThread(pid)) && pid != 0 && token != 0
            && awaited != token
    requires m.drainer.Idle? && |m.slots| == SLOTS && |m.holder| == SLOTS && m.slots[0] == IoMailbox.Slot(pid, token)
    requires m.holder[0] == Some(0) && 0 in m.records && m.records[0] == Record(Completion(pid, token), Posted(0))
    ensures MailRun(m, OfferSteps(awaited, now))
    ensures var n := MailAfter(m, OfferSteps(awaited, now));
            0 in n.records && n.records[0] == Record(Completion(pid, token), Taken(0))
                && AwaitsIo(n.sched, pid, awaited)
  {
    var block := SchedulerStep(BlockCurrent(0, WaitingForBlockIo(awaited)));
    BlockParks(m.sched, 0, pid, WaitingForBlockIo(awaited));
    var m1 := MailApply(m, block);
    WrongTokenOffered(m1, pid, awaited, token, now);
    hide MailRun, MailAfter, MailApply;
    var rest := [DrainBegin, LoadPid, LoadToken, Decide(now)];
    StepThenRun(m, block, rest);
    assert OfferSteps(awaited, now) == [block] + rest;
  }

  lemma WrongTokenOffered(m: Mailbox, pid: nat, awaited: nat, token: nat, now: nat)
    requires AwaitsIo(m.sched, pid, awaited) && pid != 0 && token != 0 && awaited != token
    requires m.drainer.Idle? && |m.slots| == SLOTS && |m.holder| == SLOTS && m.slots[0] == IoMailbox.Slot(pid, token)
    requires m.holder[0] == Some(0) && 0 in m.records && m.records[0] == Record(Completion(pid, token), Posted(0))
    ensures MailRun(m, [DrainBegin, LoadPid, LoadToken, Decide(now)])
    ensures var n := MailAfter(m, [DrainBegin, LoadPid, LoadToken, Decide(now)]);
            0 in n.records && n.records[0] == Record(Completion(pid, token), Taken(0)) && n.sched == m.sched
  {
    var m1 := MailApply(m, DrainBegin);
    var m2 := MailApply(m1, LoadPid);
    var m3 := MailApply(m2, LoadToken);
    var m4 := MailApply(m3, Decide(now));
    assert MailRun(m4, []) && MailAfter(m4, []) == m4;
    hide MailRun, MailAfter;
    StepThenRun(m3, Decide(now), []);
    StepThenRun(m2, LoadToken, [Decide(now)] + []);
    StepThenRun(m1, LoadPid, [LoadToken] + ([Decide(now)] + []));
    StepThenRun(m, DrainBegin, [LoadPid] + ([LoadToken] + ([Decide(now)] + [])));
    assert [DrainBegin, LoadPid, LoadToken, Decide(now)] ==
           [DrainBegin] + ([LoadPid] + ([LoadToken] + ([Decide(now)] + [])));
  }

  /**
   The promise fails with two tokens outstanding: a completion posted early is
   offered while its thread awaits the other one, is taken, and wakes nobody. No
   completion being taken twice, it is not there when the thread blocks on it.
   */
  lemma WrongTokenLost(s: Sched, pid: nat, awaited: nat, token: nat, now: nat)
    requires SchedInv(s) && s.current[0] == Some(KernelThread(pid)) && pid != 0 && token != 0 && awaited != token
    ensures var steps := PostSteps(Completion(pid, token)) + OfferSteps(awaited, now);
            && MailRun(EmptyMailbox(s), steps)
            && var n := MailAfter(EmptyMailbox(s), steps);
               0 in n.records && n.records[0] == Record(Completion(pid, token), Taken(0))
                   && AwaitsIo(n.sched, pid, awaited)
  {
    hide MailRun, MailAfter, AwaitsIo, PostSteps, OfferSteps;
    PostedAlone(s, Completion(pid, token));
    var m := MailAfter(EmptyMailbox(s), PostSteps(Completion(pid, token)));
    WrongTokenTaken(m, pid, awaited, token, now);
    RunsJoin(EmptyMailbox(s), PostSteps(Completion(pid, token)), OfferSteps(awaited, now));
  }

  lemma {:induction false} RunsJoin(m: Mailbox, a: seq<MailStep>, b: seq<MailStep>)
    requires MailRun(m, a) && MailRun(MailAfter(m, a), b)
    ensures MailRun(m, a + b) && MailAfter(m, a + b) == MailAfter(MailAfter(m, a), b)
    decreases |a|
  {
    hide MailEnabled, MailApply;
    if a == [] {
      assert a + b == b;
    } else {
      assert (a + b)[1..] == a[1..] + b;
      RunsJoin(MailApply(m, a[0]), a[1..], b);
    }
  }

  /** A state in which this happens: thread 1 has been spawned and picked. */
  lemma ThreadRuns()
    ensures EnabledRun(Initial(0), [Spawn(1, 0), Schedule(0, 0)])
    ensures var s := Run(Initial(0), [Spawn(1, 0), Schedule(0, 0)]);
            SchedInv(s) && s.current[0] == Some(KernelThread(1))
  {
    var s1 := Apply(Initial(0), Spawn(1, 0));
    assert s1.queue == [KernelThread(1)] && Eligible(s1, 0, 0);
    PickIs(s1, 0, 0);
    assert [Spawn(1, 0), Schedule(0, 0)][1..] == [Schedule(0, 0)];
    InitialInv(0);
    RunInv(Initial(0), [Spawn(1, 0), Schedule(0, 0)]);
  }
}
