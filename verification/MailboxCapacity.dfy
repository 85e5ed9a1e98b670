/**
 When the wake mailbox can run full. A producer scans the slots once, while others
 free and claim them behind and before it. Still, as long as no more completions
 are under way at once than there are slots, every producer finds one; and one that
 finds none found each slot held when it came there.
 */
module MailboxCapacity {
  import opened SchedulerSpec
  import opened SchedulerSafety
  import opened IoMailbox

  type Records = map<nat, Record>

  /** Under way, and at slot `i` or further. */
  predicate Reaches(phase: Phase, i: nat) {
    match phase
    case Scanning(at) => i <= at
    case Claimed(slot) => i <= slot
    case Posted(slot) => i <= slot
    case Taken(slot) => i <= slot
    case _ => false
  }

  function Beyond(records: Records, i: nat): set<nat> {
    set r | r in records && Reaches(records[r].phase, i)
  }

  function UnderWay(m: Mailbox): nat {
    |Beyond(m.records, 0)|
  }

  /** The further along the slots, the fewer completions have come there. */
  ghost predicate Thinning(records: Records) {
    forall i: nat :: ThinAt(records, i)
  }

  ghost predicate ThinAt(records: Records, i: nat) {
    i <= SLOTS ==> |Beyond(records, i)| <= SLOTS - i
  }

  lemma {:induction false} SubsetCard(a: set<nat>, b: set<nat>)
    requires a <= b
    ensures |a| <= |b|
  {
    if a != {} {
      var x :| x in a;
      SubsetCard(a - {x}, b - {x});
    }
  }

  /** Passing slot `i` leaves its holder behind. */
  lemma PassedThins(records: Records, r: nat, i: nat, h: nat, j: nat)
    requires Thinning(records) && r in records && records[r].phase == Scanning(i) && i < SLOTS
    requires h in records && h != r && Holds(records[h].phase, i)
    ensures ThinAt(records[r := records[r].(phase := Scanning(i + 1))], j)
  {
    var after := records[r := records[r].(phase := Scanning(i + 1))];
    assert ThinAt(records, i) && ThinAt(records, j);
    if j == i + 1 {
      assert Beyond(after, j) <= Beyond(records, i) - {h};
      SubsetCard(Beyond(after, j), Beyond(records, i) - {h});
      assert h in Beyond(records, i);
    } else {
      assert Beyond(after, j) == Beyond(records, j);
    }
  }

  /** A step on which nothing moves up the slots. */
  ghost predicate StaysPut(m: Mailbox, n: Mailbox) {
    forall r, j: nat | r in n.records && 0 < j && Reaches(n.records[r].phase, j) ::
      r in m.records && Reaches(m.records[r].phase, j)
  }

  lemma PutThins(m: Mailbox, n: Mailbox)
    requires Thinning(m.records) && StaysPut(m, n) && UnderWay(n) <= SLOTS
    ensures Thinning(n.records)
  {
    forall j: nat
      ensures ThinAt(n.records, j)
    {
      if 0 < j {
        assert ThinAt(m.records, j) && Beyond(n.records, j) <= Beyond(m.records, j);
        SubsetCard(Beyond(n.records, j), Beyond(m.records, j));
      }
    }
  }

  lemma OtherStaysPut(m: Mailbox, st: MailStep)
    requires MailInv(m) && MailEnabled(m, st) && !st.Claim?
    ensures StaysPut(m, MailApply(m, st))
  {
    if !m.drainer.Idle? && m.drainer.slot < SLOTS {
      assert SlotOk(m, m.drainer.slot);
    }
  }

  ghost predicate NoneLost(m: Mailbox) {
    forall r | r in m.records :: !m.records[r].phase.Overflowed?
  }

  lemma OtherLosesNone(m: Mailbox, st: MailStep)
    requires MailEnabled(m, st) && !st.Claim? && NoneLost(m)
    ensures NoneLost(MailApply(m, st))
  {
  }

  lemma ClaimThins(m: Mailbox, r: nat)
    requires MailInv(m) && MailEnabled(m, Claim(r)) && Thinning(m.records) && NoneLost(m)
    ensures Thinning(Claiming(m, r).records) && NoneLost(Claiming(m, r))
  {
    var n, i := Claiming(m, r), m.records[r].phase.at;
    assert ThinAt(m.records, SLOTS);
    assert SLOTS <= i ==> r in Beyond(m.records, SLOTS);
    assert SlotOk(m, i);
    if m.slots[i].pid != 0 {
      forall j: nat
        ensures ThinAt(n.records, j)
      {
        PassedThins(m.records, r, i, m.holder[i].value, j);
      }
    } else {
      forall j: nat
        ensures ThinAt(n.records, j)
      {
        assert ThinAt(m.records, j) && Beyond(n.records, j) == Beyond(m.records, j);
      }
    }
  }

  lemma StepThins(m: Mailbox, st: MailStep)
    requires MailInv(m) && MailEnabled(m, st) && Thinning(m.records) && NoneLost(m)
    requires UnderWay(MailApply(m, st)) <= SLOTS
    ensures Thinning(MailApply(m, st).records) && NoneLost(MailApply(m, st))
  {
    hide MailInv, Thinning, NoneLost;
    if st.Claim? {
      ClaimThins(m, st.record);
    } else {
      hide MailApply;
      OtherStaysPut(m, st);
      PutThins(m, MailApply(m, st));
      OtherLosesNone(m, st);
    }
  }

  /** No more completions are ever under way than there are slots. */
  ghost predicate Roomy(m: Mailbox, steps: seq<MailStep>)
    requires MailRun(m, steps)
    decreases |steps|
  {
    UnderWay(m) <= SLOTS && (steps == [] || Roomy(MailApply(m, steps[0]), steps[1..]))
  }

  lemma {:induction false} RoomyLosesNone(m: Mailbox, steps: seq<MailStep>)
    requires MailInv(m) && Thinning(m.records) && NoneLost(m) && MailRun(m, steps) && Roomy(m, steps)
    ensures NoneLost(MailAfter(m, steps))
    decreases |steps|
  {
    hide MailInv, Thinning, NoneLost, MailApply, MailEnabled, UnderWay;
    if steps != [] {
      MailStepInv(m, steps[0]);
      StepThins(m, steps[0]);
      RoomyLosesNone(MailApply(m, steps[0]), steps[1..]);
    }
  }

  /** From an empty mailbox, no completion is lost while at most 64 are under way at once. */
  lemma NoneLostWithRoom(sched: Sched, steps: seq<MailStep>)
    requires SchedInv(sched) && MailRun(EmptyMailbox(sched), steps) && Roomy(EmptyMailbox(sched), steps)
    ensures NoneLost(MailAfter(EmptyMailbox(sched), steps))
  {
    var m := EmptyMailbox(sched);
    EmptyMailboxInv(sched);
    forall i: nat
      ensures ThinAt(m.records, i)
    {
      assert Beyond(m.records, i) == {};
    }
    RoomyLosesNone(m, steps);
  }

  // -------------------------------------------------------------------- no room

  /** The scan of one producer that nobody interrupts. */
  function Scan(r: nat, tries: nat): seq<MailStep> {
    seq(tries, _ => Claim(r))
  }

  ghost predicate AllHeld(m: Mailbox) {
    |m.slots| == SLOTS && |m.holder| == SLOTS && forall i | 0 <= i < SLOTS :: m.slots[i].pid != 0
  }

  /** With every slot held, a further completion is lost. */
  lemma {:induction false} FullLoses(m: Mailbox, r: nat, at: nat)
    requires AllHeld(m) && r in m.records && m.records[r].phase == Scanning(at) && at <= SLOTS
    ensures MailRun(m, Scan(r, SLOTS + 1 - at))
    ensures var n := MailAfter(m, Scan(r, SLOTS + 1 - at)); r in n.records && n.records[r].phase.Overflowed?
    decreases SLOTS - at
  {
    var n := MailApply(m, Claim(r));
    var steps := Scan(r, SLOTS + 1 - at);
    assert steps[0] == Claim(r) && steps[1..] == Scan(r, SLOTS - at);
    if at == SLOTS {
      assert steps[1..] == [];
    } else {
      FullLoses(n, r, at + 1);
    }
  }

  /** The mailbox as a producer found it at each of its tries. */
  function Tries(m: Mailbox, steps: seq<MailStep>, r: nat): seq<Mailbox>
    requires MailRun(m, steps)
    decreases |steps|
  {
    if steps == [] then []
    else (if steps[0] == Claim(r) then [m] else []) + Tries(MailApply(m, steps[0]), steps[1..], r)
  }

  /** Each remaining slot was held when the producer tried it, and then the slots ran out. */
  ghost predicate AllTaken(tries: seq<Mailbox>, at: nat) {
    && at <= SLOTS && |tries| == SLOTS - at + 1
    && forall k | 0 <= k < SLOTS - at :: HeldAt(tries[k], at + k)
  }

  predicate HeldAt(m: Mailbox, i: nat) {
    i < |m.slots| && m.slots[i].pid != 0
  }

  lemma OthersKeep(m: Mailbox, st: MailStep, r: nat)
    requires MailInv(m) && MailEnabled(m, st) && r in m.records && st != Claim(r)
    ensures var n := MailApply(m, st);
            && r in n.records
            && (m.records[r].phase.Scanning? ==> n.records[r] == m.records[r])
            && n.records[r].phase.Scanning? == m.records[r].phase.Scanning?
            && n.records[r].phase.Overflowed? == m.records[r].phase.Overflowed?
  {
    if !m.drainer.Idle? && m.drainer.slot < SLOTS {
      assert SlotOk(m, m.drainer.slot);
    }
  }

  /** A completion that left the scan is never tried again and is lost only if it was. */
  lemma {:induction false} Settled(m: Mailbox, steps: seq<MailStep>, r: nat)
    requires MailInv(m) && MailRun(m, steps) && r in m.records && !m.records[r].phase.Scanning?
    ensures Tries(m, steps, r) == []
    ensures var n := MailAfter(m, steps);
            r in n.records && n.records[r].phase.Overflowed? == m.records[r].phase.Overflowed?
    decreases |steps|
  {
    if steps != [] {
      assert steps[0] != Claim(r);
      hide MailInv, MailEnabled, MailApply;
      OthersKeep(m, steps[0], r);
      MailStepInv(m, steps[0]);
      Settled(MailApply(m, steps[0]), steps[1..], r);
    }
  }

  lemma ClaimOutcome(m: Mailbox, r: nat, at: nat)
    requires MailEnabled(m, Claim(r)) && m.records[r].phase == Scanning(at)
    ensures var n := MailApply(m, Claim(r));
            && r in n.records
            && (SLOTS <= at ==> n.records[r].phase == Overflowed)
            && (at < SLOTS && HeldAt(m, at) ==> n.records[r].phase == Scanning(at + 1))
            && (at < SLOTS && !HeldAt(m, at) ==> n.records[r].phase == Claimed(at))
  {
  }

  lemma TakenStep(m: Mailbox, rest: seq<Mailbox>, at: nat)
    requires at < SLOTS
    ensures AllTaken([m] + rest, at) <==> HeldAt(m, at) && AllTaken(rest, at + 1)
  {
    if AllTaken([m] + rest, at) {
      assert HeldAt(([m] + rest)[0], at);
      forall k | 0 <= k < SLOTS - at - 1
        ensures HeldAt(rest[k], at + 1 + k)
      {
        assert HeldAt(([m] + rest)[k + 1], at + (k + 1));
      }
    }
  }

  /**
   Over every interleaving, a completion is lost exactly when each slot was held at
   the moment its producer tried it.
   */
  lemma {:induction false} LostExactly(m: Mailbox, steps: seq<MailStep>, r: nat, at: nat)
    requires MailInv(m) && MailRun(m, steps) && r in m.records && m.records[r].phase == Scanning(at) && at <= SLOTS
    ensures var n := MailAfter(m, steps);
            r in n.records && (n.records[r].phase.Overflowed? <==> AllTaken(Tries(m, steps, r), at))
    decreases |steps|
  {
    hide MailInv, MailEnabled, MailApply, HeldAt;
    if steps != [] {
      var n := MailApply(m, steps[0]);
      MailStepInv(m, steps[0]);
      var rest := Tries(n, steps[1..], r);
      if steps[0] != Claim(r) {
        OthersKeep(m, steps[0], r);
        LostExactly(n, steps[1..], r, at);
        assert Tries(m, steps, r) == rest;
      } else {
        ClaimOutcome(m, r, at);
        if at < SLOTS {
          TakenStep(m, rest, at);
        }
        if at < SLOTS && HeldAt(m, at) {
          LostExactly(n, steps[1..], r, at + 1);
        } else {
          Settled(n, steps[1..], r);
        }
      }
    }
  }
}
