/**
 The single-producer single-consumer ring of raw input events, at the granularity
 of one load or store per step. It refines a bounded first-in first-out queue.
 */
module InputQueue {
  import opened Base

  const QUEUE_SIZE: nat := 256

  datatype Event = KeyboardScancode(code: bv8) | MousePacketByte(data: bv8)

  /** Where the interrupt handler stands in `push`. `popsSeen` dates the tail it read. */
  datatype Producer =
    | Resting
    | HasHead(event: Event, head: nat)
    | HasTail(event: Event, head: nat, tail: nat, popsSeen: nat)
    | Written(event: Event, head: nat)

  /** Where the main loop stands in `pop`. `pushesSeen` dates the head it read. */
  datatype Consumer =
    | Waiting
    | TailLoaded(tail: nat)
    | HeadLoaded(tail: nat, head: nat, pushesSeen: nat)
    | HasEvent(tail: nat, event: Event)

  datatype Ring = Ring(
    buffer: seq<Event>,
    head: nat,
    tail: nat,
    dropped: nat,
    producer: Producer,
    consumer: Consumer,
    accepted: seq<Event>,
    popped: seq<Event>,
    rejected: nat)

  datatype RingStep =
    | PushLoadHead(event: Event)
    | PushLoadTail
    | PushStore
    | PushPublish
    | PopLoadTail
    | PopLoadHead
    | PopRead
    | PopPublish

  predicate Enabled(r: Ring, st: RingStep) {
    && |r.buffer| == QUEUE_SIZE
    && match st {
         case PushLoadHead(_) => r.producer.Resting?
         case PushLoadTail => r.producer.HasHead?
         case PushStore => r.producer.HasTail? && r.producer.head < QUEUE_SIZE
         case PushPublish => r.producer.Written?
         case PopLoadTail => r.consumer.Waiting?
         case PopLoadHead => r.consumer.TailLoaded?
         case PopRead => r.consumer.HeadLoaded? && r.consumer.tail < QUEUE_SIZE
         case PopPublish => r.consumer.HasEvent?
       }
  }

  function Apply(r: Ring, st: RingStep): Ring
    requires Enabled(r, st)
  {
    match st
    case PushLoadHead(e) => r.(producer := HasHead(e, r.head))
    case PushLoadTail => r.(producer := HasTail(r.producer.event, r.producer.head, r.tail, |r.popped|))
    case PushStore =>
      if (r.producer.head + 1) % 256 == r.producer.tail
      then r.(producer := Resting, dropped := (r.dropped + 1) % U64_END, rejected := r.rejected + 1)
      else r.(producer := Written(r.producer.event, r.producer.head),
              buffer := r.buffer[r.producer.head := r.producer.event])
    case PushPublish =>
      r.(producer := Resting, head := (r.producer.head + 1) % 256, accepted := r.accepted + [r.producer.event])
    case PopLoadTail => r.(consumer := TailLoaded(r.tail))
    case PopLoadHead => r.(consumer := HeadLoaded(r.consumer.tail, r.head, |r.accepted|))
    case PopRead =>
      if r.consumer.tail == r.consumer.head then r.(consumer := Waiting)
      else r.(consumer := HasEvent(r.consumer.tail, r.buffer[r.consumer.tail]))
    case PopPublish =>
      r.(consumer := Waiting, tail := (r.consumer.tail + 1) % 256, popped := r.popped + [r.consumer.event])
  }

  /** Accepted and not yet popped. */
  function Pending(r: Ring): nat {
    if |r.popped| <= |r.accepted| then |r.accepted| - |r.popped| else 0
  }

  /** The event accepted as number `k` is in its slot while it is pending. */
  ghost predicate SlotHolds(r: Ring, k: nat)
    requires |r.buffer| == QUEUE_SIZE
  {
    |r.popped| <= k < |r.accepted| ==> r.buffer[k % 256] == r.accepted[k]
  }

  ghost predicate ProducerOk(r: Ring)
    requires |r.buffer| == QUEUE_SIZE
  {
    match r.producer
    case Resting => true
    case HasHead(_, head) => head == r.head
    case HasTail(_, head, tail, popsSeen) =>
      head == r.head && popsSeen <= |r.popped| && tail == popsSeen % 256 && |r.accepted| - popsSeen <= 255
    case Written(event, head) => head == r.head && head < 256 && Pending(r) < 255 && r.buffer[head] == event
  }

  ghost predicate ConsumerOk(r: Ring) {
    match r.consumer
    case Waiting => true
    case TailLoaded(tail) => tail == r.tail
    case HeadLoaded(tail, head, pushesSeen) =>
      tail == r.tail && |r.popped| <= pushesSeen <= |r.accepted| && head == pushesSeen % 256
    case HasEvent(tail, event) => tail == r.tail && 0 < Pending(r) && event == r.accepted[|r.popped|]
  }

  ghost predicate RingInv(r: Ring) {
    && |r.buffer| == QUEUE_SIZE && r.popped <= r.accepted && Pending(r) <= 255
    && r.head == |r.accepted| % 256 && r.tail == |r.popped| % 256
    && r.dropped == r.rejected % U64_END
    && (forall k: nat :: SlotHolds(r, k)) && ProducerOk(r) && ConsumerOk(r)
  }

  /** Counts less than a lap apart have equal slots only if they are equal. */
  lemma SlotsDiffer(a: nat, b: nat)
    requires a <= b <= a + 256 && a % 256 == b % 256
    ensures a == b || b == a + 256
  {
  }

  lemma NextSlot(n: nat)
    ensures (n % 256 + 1) % 256 == (n + 1) % 256
  {
  }

  /** A tail read earlier that leaves room guarantees room now. */
  lemma RoomStays(r: Ring)
    requires RingInv(r) && r.producer.HasTail? && (r.producer.head + 1) % 256 != r.producer.tail
    ensures Pending(r) < 255
  {
    NextSlot(|r.accepted|);
    FullLap(|r.accepted|, r.producer.popsSeen);
  }

  lemma FullLap(pushed: nat, popped: nat)
    ensures pushed == popped + 255 ==> (pushed + 1) % 256 == popped % 256
  {
  }

  lemma NextCount(n: nat)
    ensures (n % U64_END + 1) % U64_END == (n + 1) % U64_END
  {
  }

  lemma RejectInv(r: Ring)
    requires RingInv(r) && Enabled(r, PushStore) && (r.producer.head + 1) % 256 == r.producer.tail
    ensures RingInv(Apply(r, PushStore))
  {
    var n := Apply(r, PushStore);
    NextCount(r.rejected);
    forall k: nat
      ensures SlotHolds(n, k)
    {
      assert SlotHolds(r, k);
    }
  }

  /** The slot of the next event holds no pending one. */
  lemma WriteSlot(r: Ring, k: nat)
    requires RingInv(r) && Pending(r) < 255 && |r.popped| <= k < |r.accepted|
    ensures k % 256 != r.head
  {
    if k % 256 == |r.accepted| % 256 {
      SlotsDiffer(k, |r.accepted|);
    }
  }

  lemma WriteInv(r: Ring)
    requires RingInv(r) && Enabled(r, PushStore) && (r.producer.head + 1) % 256 != r.producer.tail
    ensures RingInv(Apply(r, PushStore))
  {
    var n := Apply(r, PushStore);
    RoomStays(r);
    forall k: nat
      ensures SlotHolds(n, k)
    {
      assert SlotHolds(r, k);
      if |r.popped| <= k < |r.accepted| {
        WriteSlot(r, k);
      }
    }
  }

  lemma PublishInv(r: Ring)
    requires RingInv(r) && Enabled(r, PushPublish)
    ensures RingInv(Apply(r, PushPublish))
  {
    var n := Apply(r, PushPublish);
    NextSlot(|r.accepted|);
    assert n.accepted[..|r.accepted|] == r.accepted;
    forall k: nat
      ensures SlotHolds(n, k)
    {
      assert SlotHolds(r, k);
    }
  }

  lemma ReadInv(r: Ring)
    requires RingInv(r) && Enabled(r, PopRead)
    ensures RingInv(Apply(r, PopRead))
  {
    var n := Apply(r, PopRead);
    assert SlotHolds(r, |r.popped|);
    forall k: nat
      ensures SlotHolds(n, k)
    {
      assert SlotHolds(r, k);
    }
  }

  lemma PopInv(r: Ring)
    requires RingInv(r) && Enabled(r, PopPublish)
    ensures RingInv(Apply(r, PopPublish))
  {
    var n := Apply(r, PopPublish);
    NextSlot(|r.popped|);
    forall k: nat
      ensures SlotHolds(n, k)
    {
      assert SlotHolds(r, k);
    }
  }

  lemma LoadInv(r: Ring, st: RingStep)
    requires RingInv(r) && Enabled(r, st)
    requires st.PushLoadHead? || st.PushLoadTail? || st.PopLoadTail? || st.PopLoadHead?
    ensures RingInv(Apply(r, st))
  {
    var n := Apply(r, st);
    forall k: nat
      ensures SlotHolds(n, k)
    {
      assert SlotHolds(r, k);
    }
  }

  lemma StepInv(r: Ring, st: RingStep)
    requires RingInv(r) && Enabled(r, st)
    ensures RingInv(Apply(r, st))
  {
    hide RingInv, Apply;
    match st
    case PushStore =>
      if (r.producer.head + 1) % 256 == r.producer.tail {
        RejectInv(r);
      } else {
        WriteInv(r);
      }
    case PushPublish => PublishInv(r);
    case PopRead => ReadInv(r);
    case PopPublish => PopInv(r);
    case _ => LoadInv(r, st);
  }

  // ----------------------------------------------------------------------- runs

  function EmptyRing(): Ring {
    Ring(seq(QUEUE_SIZE, _ => KeyboardScancode(0)), 0, 0, 0, Resting, Waiting, [], [], 0)
  }

  predicate IsRun(r: Ring, steps: seq<RingStep>)
    decreases |steps|
  {
    steps == [] || (Enabled(r, steps[0]) && IsRun(Apply(r, steps[0]), steps[1..]))
  }

  function After(r: Ring, steps: seq<RingStep>): Ring
    requires IsRun(r, steps)
    decreases |steps|
  {
    if steps == [] then r else After(Apply(r, steps[0]), steps[1..])
  }

  lemma {:induction false} RunInv(r: Ring, steps: seq<RingStep>)
    requires RingInv(r) && IsRun(r, steps)
    ensures RingInv(After(r, steps))
    decreases |steps|
  {
    if steps != [] {
      StepInv(r, steps[0]);
      RunInv(Apply(r, steps[0]), steps[1..]);
    }
  }

  /** The bounded queue that the ring stands for. */
  function Contents(r: Ring): seq<Event> {
    if |r.popped| <= |r.accepted| then r.accepted[|r.popped|..] else []
  }

  /**
   Over every interleaving the events popped are a prefix of those accepted, at
   most 255 wait in between, and the drop counter counts the rejected pushes.
   */
  lemma Refines(steps: seq<RingStep>)
    requires IsRun(EmptyRing(), steps)
    ensures var r := After(EmptyRing(), steps);
            r.popped <= r.accepted && |Contents(r)| <= 255 && r.popped + Contents(r) == r.accepted
            && r.dropped == r.rejected % U64_END
  {
    RunInv(EmptyRing(), steps);
  }

  /** Each step leaves the queue, appends to it, or takes its oldest event: it is a queue. */
  lemma StepRefines(r: Ring, st: RingStep)
    requires RingInv(r) && Enabled(r, st)
    ensures var q, t := Contents(r), Contents(Apply(r, st));
            match st
            case PushPublish => t == q + [r.producer.event]
            case PopPublish => q != [] && r.consumer.event == q[0] && t == q[1..]
            case _ => t == q
  {
  }

  /** The slot being written is never the slot being read. */
  lemma NeverOverlap(r: Ring)
    requires RingInv(r) && r.producer.HasTail? && (r.producer.head + 1) % 256 != r.producer.tail
    requires r.consumer.HeadLoaded? && r.consumer.tail != r.consumer.head
    ensures r.producer.head != r.consumer.tail
  {
    RoomStays(r);
    if r.producer.head == r.consumer.tail {
      SlotsDiffer(|r.popped|, |r.accepted|);
    }
  }

  /** A push is refused only if 255 events were pending when it read the tail. */
  lemma RefusedOnlyWhenFull(r: Ring)
    requires RingInv(r) && Enabled(r, PushStore) && (r.producer.head + 1) % 256 == r.producer.tail
    ensures |r.accepted| - r.producer.popsSeen == 255
  {
    NextSlot(|r.accepted|);
    SlotsDiffer(r.producer.popsSeen, |r.accepted| + 1);
  }

  /** A pop comes back empty only if nothing was pending when it read the head. */
  lemma EmptyOnlyWhenDrained(r: Ring)
    requires RingInv(r) && Enabled(r, PopRead) && r.consumer.tail == r.consumer.head
    ensures r.consumer.pushesSeen == |r.popped|
  {
    SlotsDiffer(|r.popped|, r.consumer.pushesSeen);
  }
}
