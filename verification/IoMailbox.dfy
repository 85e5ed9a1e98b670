/**
 The wake mailbox between interrupt handlers and the scheduler. Producers claim a
 slot by its pid word and then store the token; the drainer, holding the scheduler
 lock, reads both words, offers the pair to the scheduler and clears the slot once
 it is accepted. Every word access is one step, interleaved in any order under
 sequential consistency.
 */
module IoMailbox {
  import opened Base
  import opened SchedulerSpec
  import opened SchedulerSafety
  import opened SchedulerRuns

  const SLOTS: nat := 64

  datatype Slot = Slot(pid: nat, token: nat)

  datatype Completion = Completion(pid: nat, token: nat)

  /** Where one completion stands on its way through the mailbox. */
  datatype Phase = Scanning(at: nat) | Claimed(slot: nat) | Posted(slot: nat) | Taken(slot: nat) | Gone | Overflowed

  datatype Record = Record(completion: Completion, phase: Phase)

  datatype Drainer =
    | Idle
    | At(slot: nat)
    | HasPid(slot: nat, pid: nat)
    | HasBoth(slot: nat, pid: nat, token: nat)
    | Accepted(slot: nat)
    | TokenCleared(slot: nat)

  datatype Mailbox = Mailbox(
    slots: seq<Slot>,
    records: map<nat, Record>,
    holder: seq<Option<nat>>,
    drainer: Drainer,
    sched: Sched,
    drained: seq<nat>)

  datatype MailStep =
    | Post(record: nat, completion: Completion)
    | Claim(record: nat)
    | StoreToken(record: nat)
    | DrainBegin
    | LoadPid
    | LoadToken
    | Decide(now: nat)
    | ClearToken
    | ClearPid
    | DrainEnd
    | SchedulerStep(step: Step)

  predicate MailEnabled(m: Mailbox, st: MailStep) {
    && |m.slots| == SLOTS && |m.holder| == SLOTS
    && match st {
         case Post(r, c) => r !in m.records && c.pid != 0 && c.token != 0
         case Claim(r) => r in m.records && m.records[r].phase.Scanning?
         case StoreToken(r) => r in m.records && m.records[r].phase.Claimed? && m.records[r].phase.slot < SLOTS
         case DrainBegin => m.drainer.Idle?
         case LoadPid => m.drainer.At? && m.drainer.slot < SLOTS
         case LoadToken => m.drainer.HasPid? && m.drainer.slot < SLOTS
         case Decide(_) => m.drainer.HasBoth? && m.drainer.slot < SLOTS
         case ClearToken => m.drainer.Accepted? && m.drainer.slot < SLOTS
         case ClearPid => m.drainer.TokenCleared? && m.drainer.slot < SLOTS
         case DrainEnd => m.drainer.At? && m.drainer.slot == SLOTS
         case SchedulerStep(step) => m.drainer.Idle? && Enabled(m.sched, step)
       }
  }

  function WithPhase(m: Mailbox, r: nat, phase: Phase): map<nat, Record>
    requires r in m.records
  {
    m.records[r := m.records[r].(phase := phase)]
  }

  /** One try of the claiming scan: a compare-and-exchange of the pid word from zero. */
  function Claiming(m: Mailbox, r: nat): Mailbox
    requires r in m.records && m.records[r].phase.Scanning? && |m.slots| == SLOTS && |m.holder| == SLOTS
  {
    var i := m.records[r].phase.at;
    if SLOTS <= i then m.(records := WithPhase(m, r, Overflowed))
    else if m.slots[i].pid != 0 then m.(records := WithPhase(m, r, Scanning(i + 1)))
    else m.(slots := m.slots[i := m.slots[i].(pid := m.records[r].completion.pid)],
            records := WithPhase(m, r, Claimed(i)), holder := m.holder[i := Some(r)])
  }

  /** The drainer's decision on the two words it has read. */
  function Decided(m: Mailbox, now: nat): Mailbox
    requires m.drainer.HasBoth? && m.drainer.slot < |m.holder|
  {
    var i, pid, token := m.drainer.slot, m.drainer.pid, m.drainer.token;
    if pid == 0 || token == 0 || !AcceptsIo(m.sched, pid) then m.(drainer := At(i + 1))
    else if m.holder[i].Some? && m.holder[i].value in m.records then
      m.(drainer := Accepted(i), sched := IoWoken(m.sched, pid, token, now),
         records := WithPhase(m, m.holder[i].value, Taken(i)), drained := m.drained + [m.holder[i].value])
    else m.(drainer := Accepted(i), sched := IoWoken(m.sched, pid, token, now))
  }

  function Freed(m: Mailbox): Mailbox
    requires m.drainer.TokenCleared? && m.drainer.slot < SLOTS && |m.slots| == SLOTS && |m.holder| == SLOTS
  {
    var i := m.drainer.slot;
    m.(slots := m.slots[i := m.slots[i].(pid := 0)], drainer := At(i + 1), holder := m.holder[i := None],
       records := if m.holder[i].Some? && m.holder[i].value in m.records
                  then WithPhase(m, m.holder[i].value, Gone) else m.records)
  }

  function MailApply(m: Mailbox, st: MailStep): Mailbox
    requires MailEnabled(m, st)
  {
    match st
    case Post(r, c) => m.(records := m.records[r := Record(c, Scanning(0))])
    case Claim(r) => Claiming(m, r)
    case StoreToken(r) =>
      var i := m.records[r].phase.slot;
      m.(slots := m.slots[i := m.slots[i].(token := m.records[r].completion.token)],
         records := WithPhase(m, r, Posted(i)))
    case DrainBegin => m.(drainer := At(0))
    case LoadPid => m.(drainer := HasPid(m.drainer.slot, m.slots[m.drainer.slot].pid))
    case LoadToken => m.(drainer := HasBoth(m.drainer.slot, m.drainer.pid, m.slots[m.drainer.slot].token))
    case Decide(now) => Decided(m, now)
    case ClearToken =>
      m.(slots := m.slots[m.drainer.slot := m.slots[m.drainer.slot].(token := 0)],
          drainer := TokenCleared(m.drainer.slot))
    case ClearPid => Freed(m)
    case DrainEnd => m.(drainer := Idle)
    case SchedulerStep(step) => m.(sched := Apply(m.sched, step))
  }

  // ------------------------------------------------------------------ invariant

  predicate Holds(phase: Phase, i: nat) {
    (phase.Claimed? || phase.Posted? || phase.Taken?) && phase.slot == i
  }

  /** A slot is free, or holds the words of the one record that claimed it. */
  ghost predicate SlotOk(m: Mailbox, i: nat)
    requires |m.slots| == SLOTS && |m.holder| == SLOTS
  {
    i < SLOTS ==>
      match m.holder[i]
      case None => m.slots[i] == Slot(0, 0)
      case Some(r) =>
        && r in m.records && Holds(m.records[r].phase, i)
        && m.slots[i].pid == m.records[r].completion.pid
        && m.slots[i].token == (if m.records[r].phase.Claimed? || m.drainer == TokenCleared(i) then 0
                                else m.records[r].completion.token)
        && (m.records[r].phase.Taken? <==> m.drainer == Accepted(i) || m.drainer == TokenCleared(i))
  }

  ghost predicate RecordOk(m: Mailbox, r: nat)
    requires |m.holder| == SLOTS
  {
    r in m.records ==>
      var rec := m.records[r];
      && rec.completion.pid != 0 && rec.completion.token != 0
      && (rec.phase.Claimed? || rec.phase.Posted? || rec.phase.Taken? ==>
            rec.phase.slot < SLOTS && m.holder[rec.phase.slot] == Some(r))
      && (r in m.drained <==> rec.phase.Taken? || rec.phase.Gone?)
  }

  /** What the drainer has read is what the slot's record posted. */
  ghost predicate DrainerOk(m: Mailbox)
    requires |m.slots| == SLOTS && |m.holder| == SLOTS
  {
    match m.drainer
    case Idle => true
    case At(i) => i <= SLOTS
    case HasPid(i, pid) =>
      i < SLOTS && (pid != 0 ==> Pending(m, i) && m.records[m.holder[i].value].completion.pid == pid)
    case HasBoth(i, pid, token) =>
      i < SLOTS && (pid != 0 && token != 0 ==>
        Pending(m, i) && m.records[m.holder[i].value] == Record(Completion(pid, token), Posted(i)))
    case Accepted(i) => i < SLOTS && m.holder[i].Some?
    case TokenCleared(i) => i < SLOTS && m.holder[i].Some?
  }

  ghost predicate Pending(m: Mailbox, i: nat)
    requires i < |m.holder|
  {
    m.holder[i].Some? && m.holder[i].value in m.records && !m.records[m.holder[i].value].phase.Taken?
  }

  ghost predicate MailInv(m: Mailbox) {
    && |m.slots| == SLOTS && |m.holder| == SLOTS && SchedInv(m.sched)
    && (forall i :: SlotOk(m, i)) && (forall r :: RecordOk(m, r)) && DrainerOk(m)
    && (forall r | r in m.drained :: r in m.records)
    && (forall i, j | 0 <= i < j < |m.drained| :: m.drained[i] != m.drained[j])
  }

  lemma ClaimInv(m: Mailbox, r: nat)
    requires MailInv(m) && MailEnabled(m, Claim(r))
    ensures MailInv(Claiming(m, r))
  {
    var n := Claiming(m, r);
    var at := m.records[r].phase.at;
    if at < SLOTS {
      assert SlotOk(m, at);
      if m.holder[at].Some? {
        assert RecordOk(m, m.holder[at].value);
      }
    }
    forall i
      ensures SlotOk(n, i)
    {
      assert SlotOk(m, i) && RecordOk(m, r);
    }
    forall q
      ensures RecordOk(n, q)
    {
      assert RecordOk(m, q);
    }
  }

  lemma StoreInv(m: Mailbox, r: nat)
    requires MailInv(m) && MailEnabled(m, StoreToken(r))
    ensures MailInv(MailApply(m, StoreToken(r)))
  {
    var n := MailApply(m, StoreToken(r));
    var at := m.records[r].phase.slot;
    assert RecordOk(m, r) && SlotOk(m, at);
    forall i
      ensures SlotOk(n, i)
    {
      assert SlotOk(m, i);
    }
    forall q
      ensures RecordOk(n, q)
    {
      assert RecordOk(m, q);
    }
  }

  lemma DecideInv(m: Mailbox, now: nat)
    requires MailInv(m) && MailEnabled(m, Decide(now))
    ensures MailInv(Decided(m, now))
  {
    var n := Decided(m, now);
    var at := m.drainer.slot;
    assert SlotOk(m, at);
    WokenInv(m.sched, m.drainer.pid, None, now);
    if m.holder[at].Some? {
      assert RecordOk(m, m.holder[at].value);
    }
    forall i
      ensures SlotOk(n, i)
    {
      assert SlotOk(m, i);
    }
    forall q
      ensures RecordOk(n, q)
    {
      assert RecordOk(m, q);
    }
  }

  lemma FreeInv(m: Mailbox)
    requires MailInv(m) && MailEnabled(m, ClearPid)
    ensures MailInv(Freed(m))
  {
    var n := Freed(m);
    var at := m.drainer.slot;
    assert SlotOk(m, at) && RecordOk(m, m.holder[at].value);
    forall i
      ensures SlotOk(n, i)
    {
      assert SlotOk(m, i);
    }
    forall q
      ensures RecordOk(n, q)
    {
      assert RecordOk(m, q);
    }
  }

  lemma WordInv(m: Mailbox, st: MailStep)
    requires MailInv(m) && MailEnabled(m, st)
    requires st.Post? || st.DrainBegin? || st.LoadPid? || st.LoadToken? || st.ClearToken? || st.DrainEnd?
    ensures MailInv(MailApply(m, st))
  {
    var n := MailApply(m, st);
    if !m.drainer.Idle? {
      assert SlotOk(m, m.drainer.slot);
    }
    forall i
      ensures SlotOk(n, i)
    {
      assert SlotOk(m, i);
    }
    forall q
      ensures RecordOk(n, q)
    {
      assert RecordOk(m, q);
    }
  }

  lemma SchedulerStepInv(m: Mailbox, step: Step)
    requires MailInv(m) && MailEnabled(m, SchedulerStep(step))
    ensures MailInv(MailApply(m, SchedulerStep(step)))
  {
    var n := MailApply(m, SchedulerStep(step));
    StepInv(m.sched, step);
    forall i
      ensures SlotOk(n, i)
    {
      assert SlotOk(m, i);
    }
    forall q
      ensures RecordOk(n, q)
    {
      assert RecordOk(m, q);
    }
  }

  lemma MailStepInv(m: Mailbox, st: MailStep)
    requires MailInv(m) && MailEnabled(m, st)
    ensures MailInv(MailApply(m, st))
  {
    hide MailInv, Claiming, Decided, Freed;
    match st
    case Claim(r) => ClaimInv(m, r);
    case StoreToken(r) => StoreInv(m, r);
    case Decide(now) => DecideInv(m, now);
    case ClearPid => FreeInv(m);
    case SchedulerStep(step) => SchedulerStepInv(m, step);
    case _ => WordInv(m, st);
  }

  // ----------------------------------------------------------------------- runs

  predicate MailRun(m: Mailbox, steps: seq<MailStep>)
    decreases |steps|
  {
    steps == [] || (MailEnabled(m, steps[0]) && MailRun(MailApply(m, steps[0]), steps[1..]))
  }

  function MailAfter(m: Mailbox, steps: seq<MailStep>): Mailbox
    requires MailRun(m, steps)
    decreases |steps|
  {
    if steps == [] then m else MailAfter(MailApply(m, steps[0]), steps[1..])
  }

  lemma {:induction false} MailRunInv(m: Mailbox, steps: seq<MailStep>)
    requires MailInv(m) && MailRun(m, steps)
    ensures MailInv(MailAfter(m, steps))
    decreases |steps|
  {
    if steps != [] {
      MailStepInv(m, steps[0]);
      MailRunInv(MailApply(m, steps[0]), steps[1..]);
    }
  }

  /** Whether a step hands a pair to the scheduler for good. */
  predicate Accepts(m: Mailbox, st: MailStep) {
    st.Decide? && m.drainer.HasBoth? && m.drainer.pid != 0 && m.drainer.token != 0 && AcceptsIo(m.sched, m.drainer.pid)
  }

  /** No mixing: an accepted pair is both words of one posted completion, taken for the first time. */
  lemma NeverMixed(m: Mailbox, st: MailStep)
    requires MailInv(m) && MailEnabled(m, st) && Accepts(m, st)
    ensures var r := m.holder[m.drainer.slot];
            && r.Some? && r.value in m.records
            && m.records[r.value] == Record(Completion(m.drainer.pid, m.drainer.token), Posted(m.drainer.slot))
            && r.value !in m.drained && MailApply(m, st).drained == m.drained + [r.value]
  {
    assert SlotOk(m, m.drainer.slot) && RecordOk(m, m.holder[m.drainer.slot].value);
  }

  /** Nothing is consumed except by acceptance, and each completion at most once. */
  lemma DrainedOnce(m: Mailbox, steps: seq<MailStep>, i: nat, j: nat)
    requires MailInv(m) && MailRun(m, steps)
    requires i < |MailAfter(m, steps).drained| && j < |MailAfter(m, steps).drained|
    requires MailAfter(m, steps).drained[i] == MailAfter(m, steps).drained[j]
    ensures i == j
  {
    MailRunInv(m, steps);
  }

  /** A posted completion stays in its slot until the scheduler accepts it. */
  lemma NeverLost(m: Mailbox, st: MailStep, r: nat)
    requires MailInv(m) && MailEnabled(m, st) && r in m.records && m.records[r].phase.Posted?
    ensures var n := MailApply(m, st); r in n.records
    ensures var n := MailApply(m, st);
            || n.records[r] == m.records[r]
            || (Accepts(m, st) && m.holder[m.drainer.slot] == Some(r) && n.records[r].phase.Taken?)
  {
    assert RecordOk(m, r) && SlotOk(m, m.records[r].phase.slot);
    if !m.drainer.Idle? {
      assert SlotOk(m, m.drainer.slot);
    }
  }

  /** Some step of the run hands this record's pair to the scheduler. */
  ghost predicate AcceptedIn(m: Mailbox, steps: seq<MailStep>, r: nat)
    requires MailRun(m, steps)
    decreases |steps|
  {
    steps != [] &&
    ((Accepts(m, steps[0]) && m.drainer.slot < |m.holder| && m.holder[m.drainer.slot] == Some(r))
     || AcceptedIn(MailApply(m, steps[0]), steps[1..], r))
  }

  /** Over any run a posted completion waits, slot and words unchanged, until it is accepted. */
  lemma {:induction false} StaysUntilAccepted(m: Mailbox, steps: seq<MailStep>, r: nat)
    requires MailInv(m) && MailRun(m, steps) && r in m.records && m.records[r].phase.Posted?
    ensures AcceptedIn(m, steps, r)
            || (r in MailAfter(m, steps).records && MailAfter(m, steps).records[r] == m.records[r])
    decreases |steps|
  {
    if steps != [] {
      NeverLost(m, steps[0], r);
      MailStepInv(m, steps[0]);
      if MailApply(m, steps[0]).records[r] == m.records[r] {
        StaysUntilAccepted(MailApply(m, steps[0]), steps[1..], r);
      }
    }
  }

  /** All slots free, nothing posted. */
  function EmptyMailbox(sched: Sched): Mailbox {
    Mailbox(seq(SLOTS, _ => Slot(0, 0)), map[], seq(SLOTS, _ => None), Idle, sched, [])
  }

  lemma EmptyMailboxInv(sched: Sched)
    requires SchedInv(sched)
    ensures MailInv(EmptyMailbox(sched))
  {
  }

  // --------------------------------------------------- an early completion wakes

  /** The thread has been made ready again. */
  predicate Roused(s: Sched, pid: nat) {
    pid in s.processes && s.processes[pid].state == ProcessReady
    && KernelThread(pid) in s.entities && s.entities[KernelThread(pid)].state == Ready
  }

  /** Before slot `i` has been decided in this pass. */
  predicate NotYet(d: Drainer, i: nat, c: Completion) {
    match d
    case Idle => false
    case At(k) => k <= i
    case HasPid(k, pid) => k < i || (k == i && pid == c.pid)
    case HasBoth(k, pid, token) => k < i || (k == i && pid == c.pid && token == c.token)
    case Accepted(k) => k < i
    case TokenCleared(k) => k < i
  }

  /** During a pass: the thread is roused, or its completion is still ahead of the drainer. */
  ghost predicate Coming(m: Mailbox, r: nat) {
    && r in m.records
    && var c := m.records[r].completion;
       || Roused(m.sched, c.pid)
       || (m.records[r].phase.Posted? && NotYet(m.drainer, m.records[r].phase.slot, c)
               && AwaitsIo(m.sched, c.pid, c.token))
  }

  lemma AwaitedRouses(s: Sched, pid: nat, token: nat, now: nat)
    requires SchedInv(s) && AwaitsIo(s, pid, token)
    ensures Roused(IoWoken(s, pid, token, now), pid)
  {
    assert ProcessOk(s, pid) && EntityOk(s, KernelThread(pid));
  }

  /** Another thread's wake, or a stale token, changes nothing for this one. */
  lemma OtherWake(s: Sched, pid: nat, token: nat, other: nat, token': nat, now: nat)
    requires SchedInv(s) && !(other == pid && token' == token)
    ensures AwaitsIo(s, pid, token) ==> AwaitsIo(IoWoken(s, other, token', now), pid, token)
    ensures Roused(s, pid) ==> Roused(IoWoken(s, other, token', now), pid)
  {
  }

  lemma RousedStays(s: Sched, pid: nat, token: nat, now: nat)
    requires Roused(s, pid)
    ensures Roused(IoWoken(s, pid, token, now), pid)
  {
  }

  lemma ComingDecide(m: Mailbox, now: nat, r: nat)
    requires MailInv(m) && MailEnabled(m, Decide(now)) && Coming(m, r)
    ensures Coming(Decided(m, now), r)
  {
    var c := m.records[r].completion;
    var i, pid, token := m.drainer.slot, m.drainer.pid, m.drainer.token;
    assert SlotOk(m, i) && RecordOk(m, r);
    if m.records[r].phase.Posted? {
      assert SlotOk(m, m.records[r].phase.slot);
    }
    if pid == c.pid && token == c.token {
      if AwaitsIo(m.sched, pid, token) {
        AwaitedRouses(m.sched, pid, token, now);
      } else {
        RousedStays(m.sched, pid, token, now);
      }
    } else {
      OtherWake(m.sched, c.pid, c.token, pid, token, now);
    }
  }

  lemma ComingStep(m: Mailbox, st: MailStep, r: nat)
    requires MailInv(m) && MailEnabled(m, st) && !st.DrainEnd? && !st.DrainBegin? && !st.SchedulerStep? && Coming(m, r)
    ensures Coming(MailApply(m, st), r)
  {
    if st.Decide? {
      ComingDecide(m, st.now, r);
    } else {
      assert RecordOk(m, r);
      if m.records[r].phase.Posted? {
        NeverLost(m, st, r);
        assert SlotOk(m, m.records[r].phase.slot);
      }
      CompletionKept(m, [st], r);
    }
  }

  predicate InPass(steps: seq<MailStep>) {
    forall k | 0 <= k < |steps| :: !steps[k].DrainEnd? && !steps[k].DrainBegin? && !steps[k].SchedulerStep?
  }

  lemma {:induction false} ComingRun(m: Mailbox, steps: seq<MailStep>, r: nat)
    requires MailInv(m) && MailRun(m, steps) && InPass(steps) && Coming(m, r)
    ensures Coming(MailAfter(m, steps), r)
    decreases |steps|
  {
    if steps != [] {
      ComingStep(m, steps[0], r);
      MailStepInv(m, steps[0]);
      ComingRun(MailApply(m, steps[0]), steps[1..], r);
    }
  }

  /** A pass that starts with a thread awaiting a posted completion rouses it, whatever producers do meanwhile. */
  lemma PassRouses(m: Mailbox, steps: seq<MailStep>, r: nat)
    requires MailInv(m) && m.drainer == At(0) && MailRun(m, steps) && InPass(steps)
    requires r in m.records && m.records[r].phase.Posted?
    requires AwaitsIo(m.sched, m.records[r].completion.pid, m.records[r].completion.token)
    requires MailAfter(m, steps).drainer == At(SLOTS)
    ensures Roused(MailAfter(m, steps).sched, m.records[r].completion.pid)
  {
    ComingRun(m, steps, r);
    MailRunInv(m, steps);
    assert RecordOk(MailAfter(m, steps), r);
    CompletionKept(m, steps, r);
  }

  lemma {:induction false} CompletionKept(m: Mailbox, steps: seq<MailStep>, r: nat)
    requires MailRun(m, steps) && r in m.records
    ensures r in MailAfter(m, steps).records && MailAfter(m, steps).records[r].completion == m.records[r].completion
    decreases |steps|
  {
    if steps != [] {
      CompletionKept(MailApply(m, steps[0]), steps[1..], r);
    }
  }
}
