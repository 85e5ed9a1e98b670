/**
 The export of the recorder's tail into a crash capsule, as one reader among all
 that happens to the ring meanwhile: between any two of its accesses other writers
 and readers take any steps of theirs.
 */
module TraceExport {
  import opened Base
  import opened TraceRing

  const EXPORT_PER_CPU: nat := 128

  /** What the others try to do before each access of the exporter. */
  type Plan = nat -> seq<TraceStep>

  predicate Own(st: TraceStep, p: nat) {
    (st.LoadBefore? || st.ReadWord? || st.LoadAfter?) && st.reader == p
  }

  ghost predicate StepAt(history: seq<Ring>, events: seq<TraceStep>, i: nat) {
    i < |events| && i + 1 < |history| && Enabled(history[i], events[i])
        && history[i + 1] == Apply(history[i], events[i])
  }

  /** The rings before, between and after the events of a run. */
  ghost predicate IsHistory(history: seq<Ring>, events: seq<TraceStep>) {
    |history| == |events| + 1 && forall i: nat | i < |events| :: StepAt(history, events, i)
  }

  lemma HistorySnoc(history: seq<Ring>, events: seq<TraceStep>, st: TraceStep)
    requires IsHistory(history, events) && Enabled(history[|events|], st)
    ensures IsHistory(history + [Apply(history[|events|], st)], events + [st])
  {
    hide Enabled, Apply;
    var h, e := history + [Apply(history[|events|], st)], events + [st];
    forall i: nat | i < |e|
      ensures StepAt(h, e, i)
    {
      if i < |events| {
        assert StepAt(history, events, i);
      }
    }
  }

  /** A record once read stays what its call recorded. */
  lemma FaithfulStep(r: Ring, st: TraceStep, snap: Snapshot)
    requires TraceInv(r) && Enabled(r, st) && Faithful(r, snap)
    ensures Faithful(Apply(r, st), snap)
  {
    hide TraceInv, Apply, Enabled;
    RecordsAreFinal(r, st, snap.sequence);
  }

  ghost predicate SamePart(a: Ring, b: Ring, p: nat) {
    && |b.slots| == |a.slots| && a.next <= b.next && (p in b.readers <==> p in a.readers)
    && (p in a.readers ==> b.readers[p] == a.readers[p])
  }

  lemma OthersLeave(r: Ring, st: TraceStep, p: nat)
    requires Enabled(r, st) && !Own(st, p)
    ensures SamePart(r, Apply(r, st), p)
  {
  }

  /** The exporter's look at a slot: at two points of the run it found the commit word of one finished call. */
  ghost predicate Readable(history: seq<Ring>, look: (nat, nat), sequence: nat, slot: nat) {
    && look.0 <= look.1 < |history| && slot < |history[look.0].slots| && slot < |history[look.1].slots|
    && history[look.0].slots[slot].commit == sequence * 4 + COMMITTED
    && history[look.1].slots[slot].commit == sequence * 4 + COMMITTED
  }

  class Recorder {
    var ring: Ring
    ghost var history: seq<Ring>
    ghost var events: seq<TraceStep>

    ghost predicate Valid()
      reads this
    {
      |history| == |events| + 1 && history[|events|] == ring && IsHistory(history, events) && TraceInv(ring)
    }

    constructor (len: nat)
      requires 0 < len
      ensures Valid() && ring == EmptyRing(len) && events == []
    {
      ring, history, events := EmptyRing(len), [EmptyRing(len)], [];
      new;
      RunInv(EmptyRing(len), []);
    }

    method Do(st: TraceStep)
      requires Valid() && Enabled(ring, st)
      modifies this
      ensures Valid() && ring == Apply(old(ring), st)
      ensures history == old(history) + [ring] && events == old(events) + [st]
      ensures forall snap | Faithful(old(ring), snap) :: Faithful(ring, snap)
    {
      hide TraceInv;
      HistorySnoc(history, events, st);
      StepInv(ring, st);
      forall snap | Faithful(ring, snap)
        ensures Faithful(Apply(ring, st), snap)
      {
        FaithfulStep(ring, st, snap);
      }
      ring := Apply(ring, st);
      history, events := history + [ring], events + [st];
    }

    /** Those of the planned steps that can be taken and are not the exporter's own. */
    method Others(steps: seq<TraceStep>, p: nat)
      requires Valid()
      modifies this
      ensures Valid() && SamePart(old(ring), ring, p) && old(history) <= history && old(events) <= events
      ensures forall snap | Faithful(old(ring), snap) :: Faithful(ring, snap)
    {
      hide TraceInv, Enabled, Apply, Faithful, IsHistory;
      var i := 0;
      while i < |steps|
        invariant 0 <= i <= |steps| && Valid() && SamePart(old(ring), ring, p)
        invariant old(history) <= history && old(events) <= events
        invariant forall snap | Faithful(old(ring), snap) :: Faithful(ring, snap)
      {
        if Enabled(ring, steps[i]) && !Own(steps[i], p) {
          OthersLeave(ring, steps[i], p);
          Do(steps[i]);
        }
        i := i + 1;
      }
    }

    /** The seven words, each after whatever others do. */
    method ReadWords(p: nat, plan: Plan, clock: nat)
      requires Valid() && p in ring.readers && ring.readers[p].slot < |ring.slots| && ring.readers[p].got == map[]
      modifies this
      ensures Valid() && |ring.slots| == |old(ring).slots| && old(ring).next <= ring.next
      ensures old(history) <= history && old(events) <= events && Enabled(ring, LoadAfter(p))
      ensures ring.readers[p].slot == old(ring).readers[p].slot && ring.readers[p].before == old(ring).readers[p].before
      ensures forall snap | Faithful(old(ring), snap) :: Faithful(ring, snap)
    {
      hide TraceInv, Faithful, IsHistory;
      ghost var start := ring.readers[p];
      var w := 0;
      while w < WORDS
        invariant 0 <= w <= WORDS && Valid() && |ring.slots| == |old(ring).slots| && old(ring).next <= ring.next
        invariant p in ring.readers && ring.readers[p].slot == start.slot && ring.readers[p].before == start.before
        invariant forall i: nat | i < w :: i in ring.readers[p].got
        invariant old(history) <= history && old(events) <= events
        invariant forall snap | Faithful(old(ring), snap) :: Faithful(ring, snap)
      {
        Others(plan(clock + w), p);
        RingShaped(ring);
        Do(ReadWord(p, w));
        w := w + 1;
      }
      Others(plan(clock + WORDS), p);
      RingShaped(ring);
    }

    /** One snapshot: what it returns is what the commit words at its two looks say. */
    method TakeSnapshot(slot: nat, p: nat, plan: Plan, clock: nat)
      returns (snap: Option<Snapshot>, ghost look: (nat, nat))
      requires Valid() && p !in ring.readers && slot < |ring.slots|
      modifies this
      ensures Valid() && p !in ring.readers && |ring.slots| == |old(ring).slots| && old(ring).next <= ring.next
      ensures old(history) <= history && old(events) <= events
      ensures look.0 <= look.1 < |history|
      ensures forall sequence: nat :: snap.Some? && snap.value.sequence == sequence <==>
              Readable(history, look, sequence, slot)
      ensures snap.Some? ==> Faithful(ring, snap.value)
      ensures forall s | Faithful(old(ring), s) :: Faithful(ring, s)
    {
      hide TraceInv, Faithful, IsHistory, SamePart;
      Others(plan(clock), p);
      SameShape(old(ring), ring, p);
      RingShaped(ring);
      ghost var a := |events|;
      assert history[a] == ring;
      if ring.slots[slot].commit % 4 != COMMITTED {
        Do(LoadBefore(p, slot));
        LookSays(history, (a, a), slot, None);
        return None, (a, a);
      }
      Do(LoadBefore(p, slot));
      ReadWords(p, plan, clock + 1);
      ghost var b := |events|;
      assert history[b] == ring;
      snap, look := Returned(ring, p), (a, b);
      ReturnedFaithful(ring, p);
      LookSays(history, look, slot, snap);
      ghost var seen := history;
      Do(LoadAfter(p));
      forall sequence: nat
        ensures Readable(history, look, sequence, slot) <==> Readable(seen, look, sequence, slot)
      {
      }
    }

    /**
     Exports the tail. The records are in strict order, within the last 128 at the
     moment the counter was read, each exactly what its call recorded, and those of
     the window that are missing are those the looks at their slots did not find.
     */
    method ExportTail(p: nat, plan: nat -> Plan) returns (next: nat, out: seq<Snapshot>, ghost looks: seq<(nat, nat)>)
      requires Valid() && p !in ring.readers
      modifies this
      ensures Valid() && old(history) <= history && old(ring).next <= next <= ring.next
      ensures |out| <= EXPORT_PER_CPU && Increasing(out)
      ensures forall k | 0 <= k < |out| ::
                Max(next - EXPORT_PER_CPU, 1) <= out[k].sequence < next && Faithful(ring, out[k])
      ensures |looks| == next - Max(next - EXPORT_PER_CPU, 1)
      ensures forall i | 0 <= i < |looks| ::
                var sequence := Max(next - EXPORT_PER_CPU, 1) + i;
                LookOk(history, looks[i], out, sequence, sequence % |old(ring).slots|)
    {
      hide TraceInv, Faithful, IsHistory, Readable, LookOk;
      RingShaped(ring);
      Others(plan(0)(0), p);
      RingShaped(ring);
      next := ring.next;
      var first := Max(next - EXPORT_PER_CPU, 1);
      var len := |ring.slots|;
      out, looks := [], [];
      var sequence := first;
      while sequence < next
        invariant Valid() && p !in ring.readers && |ring.slots| == len && next <= ring.next && old(history) <= history
        invariant first <= sequence <= next && |looks| == sequence - first && |out| <= |looks| && Increasing(out)
        invariant forall k | 0 <= k < |out| :: first <= out[k].sequence < sequence && Faithful(ring, out[k])
        invariant forall i | 0 <= i < |looks| :: LookOk(history, looks[i], out, first + i, (first + i) % len)
      {
        ghost var was, before := out, history;
        var snap;
        ghost var look;
        snap, look := TakeSnapshot(sequence % len, p, plan(sequence), 0);
        if snap.Some? && snap.value.sequence == sequence {
          out := out + [snap.value];
        }
        LookNow(history, look, was, snap, sequence, sequence % len);
        forall i | 0 <= i < |looks|
          ensures LookOk(history, looks[i], out, first + i, (first + i) % len)
        {
          LookLater(before, history, looks[i], was, out, first + i, (first + i) % len);
        }
        looks := looks + [look];
        sequence := sequence + 1;
      }
    }
  }

  ghost predicate Increasing(out: seq<Snapshot>) {
    forall i, j | 0 <= i < j < |out| :: out[i].sequence < out[j].sequence
  }

  predicate Has(out: seq<Snapshot>, sequence: nat) {
    exists k :: 0 <= k < |out| && out[k].sequence == sequence
  }

  /** The look at this sequence number decided whether it is in the export. */
  ghost predicate LookOk(history: seq<Ring>, look: (nat, nat), out: seq<Snapshot>, sequence: nat, slot: nat) {
    look.0 <= look.1 < |history| && (Has(out, sequence) <==> Readable(history, look, sequence, slot))
  }

  lemma LookNow(history: seq<Ring>, look: (nat, nat), was: seq<Snapshot>, snap: Option<Snapshot>, sequence: nat,
      slot: nat)
    requires look.0 <= look.1 < |history| && forall k | 0 <= k < |was| :: was[k].sequence < sequence
    requires snap.Some? && snap.value.sequence == sequence <==> Readable(history, look, sequence, slot)
    ensures var out := if snap.Some? && snap.value.sequence == sequence then was + [snap.value] else was;
            LookOk(history, look, out, sequence, slot)
  {
    hide Readable;
    if snap.Some? && snap.value.sequence == sequence {
      assert (was + [snap.value])[|was|].sequence == sequence;
    }
  }

  lemma LookLater(before: seq<Ring>, history: seq<Ring>, look: (nat, nat), was: seq<Snapshot>, out: seq<Snapshot>,
                  sequence: nat, slot: nat)
    requires before <= history && LookOk(before, look, was, sequence, slot)
    requires out == was || (exists snap: Snapshot :: out == was + [snap] && snap.sequence != sequence)
    ensures LookOk(history, look, out, sequence, slot)
  {
    if k :| 0 <= k < |was| && was[k].sequence == sequence {
      assert out[k].sequence == sequence;
    }
  }

  lemma SameShape(a: Ring, b: Ring, p: nat)
    requires SamePart(a, b, p)
    ensures |b.slots| == |a.slots| && a.next <= b.next && (p in b.readers <==> p in a.readers)
  {
  }

  /** What a snapshot returns, told from the commit words at its two looks. */
  lemma LookSays(history: seq<Ring>, look: (nat, nat), slot: nat, snap: Option<Snapshot>)
    requires look.0 <= look.1 < |history| && slot < |history[look.0].slots| && slot < |history[look.1].slots|
    requires var seen := history[look.0].slots[slot].commit;
             && (snap.Some? <==> seen % 4 == COMMITTED && history[look.1].slots[slot].commit == seen)
             && (snap.Some? ==> snap.value.sequence == seen / 4)
    ensures forall sequence: nat :: snap.Some? && snap.value.sequence == sequence <==>
            Readable(history, look, sequence, slot)
  {
  }

  lemma RingShaped(r: Ring)
    requires TraceInv(r)
    ensures Shaped(r) && 0 < r.next
  {
  }

  lemma ReturnedFaithful(r: Ring, p: nat)
    requires TraceInv(r) && Enabled(r, LoadAfter(p))
    ensures Returned(r, p).Some? ==> Faithful(r, Returned(r, p).value)
    ensures r.readers[p].before % 4 == COMMITTED
  {
    assert ReaderOk(r, p);
  }
}
