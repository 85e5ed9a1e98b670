/**
 The per-CPU flight recorder: a ring of slots, each guarded by a commit word. The
 seven data words of a slot are written and read one at a time, in any order,
 interleaved with every other writer and reader. Writers of one slot do not
 overlap in time; readers may overlap with anything.
 */
module TraceRing {
  import opened Base

  const WORDS: nat := 7
  const IN_PROGRESS: nat := 1
  const COMMITTED: nat := 2

  /** Sequences above this would lose their top bits in the commit word. */
  const SEQUENCE_LIMIT: nat := 0x4000_0000_0000_0000

  /** The seven words of a record. */
  type Words = w: seq<nat> | |w| == 7 witness [0, 0, 0, 0, 0, 0, 0]

  datatype Slot = Slot(commit: nat, data: Words)

  /** One call to record, from its sequence number on. */
  datatype Writer = Writer(record: Words, phase: WriterPhase)

  datatype WriterPhase = Numbered | Writing(written: set<nat>) | Finished

  /** One snapshot, from its first look at the commit word on. */
  datatype Reader = Reader(slot: nat, before: nat, got: map<nat, nat>)

  datatype Snapshot = Snapshot(sequence: nat, data: map<nat, nat>)

  datatype Ring = Ring(
    slots: seq<Slot>,
    next: nat,
    overwrites: nat,
    writers: map<nat, Writer>,
    busy: seq<Option<nat>>,
    readers: map<nat, Reader>)

  datatype TraceStep =
    | TakeNumber(record: Words)
    | Begin(sequence: nat)
    | WriteWord(sequence: nat, word: nat)
    | Commit(sequence: nat)
    | LoadBefore(reader: nat, slot: nat)
    | ReadWord(reader: nat, word: nat)
    | LoadAfter(reader: nat)

  predicate Shaped(r: Ring) {
    0 < |r.slots| && |r.busy| == |r.slots|
  }

  function SlotOf(r: Ring, sequence: nat): (i: nat)
    requires Shaped(r)
    ensures i < |r.slots|
  {
    sequence % |r.slots|
  }

  function CommitWord(sequence: nat, tag: nat): nat {
    (sequence * 4 + tag) % U64_END
  }

  predicate InPhase(r: Ring, sequence: nat, writing: bool) {
    sequence in r.writers && if writing then r.writers[sequence].phase.Writing? else r.writers[sequence].phase.Numbered?
  }

  predicate Enabled(r: Ring, st: TraceStep) {
    && Shaped(r)
    && match st {
         case TakeNumber(_) => r.next < SEQUENCE_LIMIT
         case Begin(s) => InPhase(r, s, false) && r.busy[SlotOf(r, s)].None?
         case WriteWord(s, i) => InPhase(r, s, true) && i < WORDS
         case Commit(s) => InPhase(r, s, true) && forall i: nat | i < WORDS :: i in r.writers[s].phase.written
         case LoadBefore(p, i) => p !in r.readers && i < |r.slots|
         case ReadWord(p, i) => p in r.readers && r.readers[p].slot < |r.slots| && i < WORDS
         case LoadAfter(p) =>
           p in r.readers && r.readers[p].slot < |r.slots| && forall i: nat | i < WORDS :: i in r.readers[p].got
       }
  }

  function Apply(r: Ring, st: TraceStep): Ring
    requires Enabled(r, st)
  {
    match st
    case TakeNumber(record) =>
      r.(next := r.next + 1, writers := r.writers[r.next := Writer(record, Numbered)],
         overwrites := if |r.slots| < r.next then (r.overwrites + 1) % U64_END else r.overwrites)
    case Begin(s) =>
      var i := SlotOf(r, s);
      r.(slots := r.slots[i := r.slots[i].(commit := CommitWord(s, IN_PROGRESS))], busy := r.busy[i := Some(s)],
         writers := r.writers[s := r.writers[s].(phase := Writing({}))])
    case WriteWord(s, w) =>
      var i := SlotOf(r, s);
      r.(slots := r.slots[i := Slot(r.slots[i].commit, r.slots[i].data[w := r.writers[s].record[w]])],
         writers := r.writers[s := r.writers[s].(phase := Writing(r.writers[s].phase.written + {w}))])
    case Commit(s) =>
      var i := SlotOf(r, s);
      r.(slots := r.slots[i := r.slots[i].(commit := CommitWord(s, COMMITTED))], busy := r.busy[i := None],
         writers := r.writers[s := r.writers[s].(phase := Finished)])
    case LoadBefore(p, i) =>
      if r.slots[i].commit % 4 != COMMITTED then r
      else r.(readers := r.readers[p := Reader(i, r.slots[i].commit, map[])])
    case ReadWord(p, w) =>
      r.(readers := r.readers[p := r.readers[p].(got := r.readers[p].got[w := r.slots[r.readers[p].slot].data[w]])])
    case LoadAfter(p) => r.(readers := r.readers - {p})
  }

  /** What a snapshot returns at its second look at the commit word. */
  function Returned(r: Ring, p: nat): Option<Snapshot>
    requires Enabled(r, LoadAfter(p))
  {
    var reader := r.readers[p];
    if r.slots[reader.slot].commit == reader.before then Some(Snapshot(reader.before / 4, reader.got)) else None
  }

  // ------------------------------------------------------------------ invariant

  predicate Done(r: Ring, s: nat) {
    s in r.writers && r.writers[s].phase.Finished?
  }

  /** A slot at rest is blank or holds exactly the record its commit word names. */
  ghost predicate SlotOk(r: Ring, i: nat)
    requires Shaped(r)
  {
    i < |r.slots| ==>
      match r.busy[i]
      case Some(s) =>
        && s in r.writers && r.writers[s].phase.Writing? && SlotOf(r, s) == i && s < SEQUENCE_LIMIT
        && r.slots[i].commit == s * 4 + IN_PROGRESS
        && forall w: nat | w in r.writers[s].phase.written && w < WORDS :: r.slots[i].data[w] == r.writers[s].record[w]
      case None =>
        r.slots[i].commit == 0 || Holds(r, i, r.slots[i].commit / 4)
  }

  ghost predicate Holds(r: Ring, i: nat, s: nat)
    requires Shaped(r) && i < |r.slots|
  {
    && Done(r, s) && s < SEQUENCE_LIMIT && r.slots[i].commit == s * 4 + COMMITTED
    && SlotOf(r, s) == i && r.slots[i].data == r.writers[s].record
  }

  ghost predicate WriterOk(r: Ring, s: nat)
    requires Shaped(r)
  {
    s in r.writers ==>
      && 0 < s < r.next
      && (r.writers[s].phase.Writing? ==> r.busy[SlotOf(r, s)] == Some(s))
  }

  /** While the commit word a reader saw still stands, what it has read is that record. */
  ghost predicate ReaderOk(r: Ring, p: nat)
    requires Shaped(r)
  {
    p in r.readers ==>
      var reader := r.readers[p];
      && reader.slot < |r.slots| && reader.before % 4 == COMMITTED
      && Done(r, reader.before / 4)
      && (r.slots[reader.slot].commit == reader.before ==>
            forall w: nat | w in reader.got && w < WORDS :: reader.got[w] == r.writers[reader.before / 4].record[w])
  }

  ghost predicate TraceInv(r: Ring) {
    && Shaped(r) && 0 < r.next <= SEQUENCE_LIMIT
    && (forall i: nat :: SlotOk(r, i)) && (forall s: nat :: WriterOk(r, s)) && (forall p: nat :: ReaderOk(r, p))
    && r.overwrites == (if |r.slots| + 1 < r.next then r.next - 1 - |r.slots| else 0)
  }

  lemma SmallCommit(s: nat, tag: nat)
    requires s < SEQUENCE_LIMIT && tag < 4
    ensures CommitWord(s, tag) == s * 4 + tag && CommitWord(s, tag) / 4 == s && CommitWord(s, tag) % 4 == tag
  {
  }

  lemma TakeNumberInv(r: Ring, record: Words)
    requires TraceInv(r) && Enabled(r, TakeNumber(record))
    ensures TraceInv(Apply(r, TakeNumber(record)))
  {
    var n := Apply(r, TakeNumber(record));
    forall i: nat
      ensures SlotOk(n, i)
    {
      assert SlotOk(r, i) && WriterOk(r, r.next);
    }
    forall s: nat
      ensures WriterOk(n, s)
    {
      assert WriterOk(r, s);
    }
    forall p: nat
      ensures ReaderOk(n, p)
    {
      assert ReaderOk(r, p) && WriterOk(r, r.next);
    }
  }

  lemma BeginInv(r: Ring, s: nat)
    requires TraceInv(r) && Enabled(r, Begin(s))
    ensures TraceInv(Apply(r, Begin(s)))
  {
    var n := Apply(r, Begin(s));
    assert WriterOk(r, s);
    SmallCommit(s, IN_PROGRESS);
    forall i: nat
      ensures SlotOk(n, i)
    {
      assert SlotOk(r, i);
    }
    forall q: nat
      ensures WriterOk(n, q)
    {
      assert WriterOk(r, q);
    }
    forall p: nat
      ensures ReaderOk(n, p)
    {
      assert ReaderOk(r, p);
    }
  }

  lemma WriteWordInv(r: Ring, s: nat, w: nat)
    requires TraceInv(r) && Enabled(r, WriteWord(s, w))
    ensures TraceInv(Apply(r, WriteWord(s, w)))
  {
    var n := Apply(r, WriteWord(s, w));
    assert WriterOk(r, s) && SlotOk(r, SlotOf(r, s));
    forall i: nat
      ensures SlotOk(n, i)
    {
      assert SlotOk(r, i);
    }
    forall q: nat
      ensures WriterOk(n, q)
    {
      assert WriterOk(r, q);
    }
    forall p: nat
      ensures ReaderOk(n, p)
    {
      assert ReaderOk(r, p);
    }
  }

  lemma CommitInv(r: Ring, s: nat)
    requires TraceInv(r) && Enabled(r, Commit(s))
    ensures TraceInv(Apply(r, Commit(s)))
  {
    var n := Apply(r, Commit(s));
    var at := SlotOf(r, s);
    assert WriterOk(r, s) && SlotOk(r, at);
    SmallCommit(s, COMMITTED);
    assert r.slots[at].data == r.writers[s].record;
    forall i: nat
      ensures SlotOk(n, i)
    {
      assert SlotOk(r, i);
    }
    forall q: nat
      ensures WriterOk(n, q)
    {
      assert WriterOk(r, q);
    }
    forall p: nat
      ensures ReaderOk(n, p)
    {
      assert ReaderOk(r, p);
    }
  }

  lemma SameWriters(r: Ring, n: Ring)
    requires TraceInv(r) && n == r.(readers := n.readers)
    ensures Shaped(n) && (forall i: nat :: SlotOk(n, i)) && forall s: nat :: WriterOk(n, s)
  {
    forall i: nat
      ensures SlotOk(n, i)
    {
      assert SlotOk(r, i);
    }
    forall s: nat
      ensures WriterOk(n, s)
    {
      assert WriterOk(r, s);
    }
  }

  lemma ReaderInv(r: Ring, st: TraceStep)
    requires TraceInv(r) && Enabled(r, st) && (st.LoadBefore? || st.ReadWord? || st.LoadAfter?)
    ensures TraceInv(Apply(r, st))
  {
    var n := Apply(r, st);
    var at := if st.LoadBefore? then st.slot else r.readers[st.reader].slot;
    assert SlotOk(r, at);
    SameWriters(r, n);
    forall p: nat
      ensures ReaderOk(n, p)
    {
      assert ReaderOk(r, p);
    }
  }

  lemma StepInv(r: Ring, st: TraceStep)
    requires TraceInv(r) && Enabled(r, st)
    ensures TraceInv(Apply(r, st))
  {
    hide TraceInv, Apply, Enabled;
    match st
    case TakeNumber(record) => TakeNumberInv(r, record);
    case Begin(s) => BeginInv(r, s);
    case WriteWord(s, w) => WriteWordInv(r, s, w);
    case Commit(s) => CommitInv(r, s);
    case _ => ReaderInv(r, st);
  }

  // ----------------------------------------------------------------------- runs

  predicate IsRun(r: Ring, steps: seq<TraceStep>)
    decreases |steps|
  {
    steps == [] || (Enabled(r, steps[0]) && IsRun(Apply(r, steps[0]), steps[1..]))
  }

  function After(r: Ring, steps: seq<TraceStep>): Ring
    requires IsRun(r, steps)
    decreases |steps|
  {
    if steps == [] then r else After(Apply(r, steps[0]), steps[1..])
  }

  function EmptyRing(len: nat): Ring {
    Ring(seq(len, _ => Slot(0, [0, 0, 0, 0, 0, 0, 0])), 1, 0, map[], seq(len, _ => None), map[])
  }

  lemma {:induction false} RunInv(r: Ring, steps: seq<TraceStep>)
    requires TraceInv(r) && IsRun(r, steps)
    ensures TraceInv(After(r, steps))
    decreases |steps|
  {
    if steps != [] {
      StepInv(r, steps[0]);
      RunInv(Apply(r, steps[0]), steps[1..]);
    }
  }

  /** The snapshot is exactly what the one call with that sequence number recorded. */
  ghost predicate Faithful(r: Ring, snap: Snapshot) {
    && Done(r, snap.sequence)
    && forall w: nat | w < WORDS :: w in snap.data && snap.data[w] == r.writers[snap.sequence].record[w]
  }

  /** Over every interleaving no snapshot is ever torn or mislabelled. */
  lemma NeverTorn(len: nat, steps: seq<TraceStep>, p: nat)
    requires 0 < len && IsRun(EmptyRing(len), steps) && Enabled(After(EmptyRing(len), steps), LoadAfter(p))
    ensures var r := After(EmptyRing(len), steps);
            Returned(r, p).Some? ==> Faithful(r, Returned(r, p).value)
  {
    RunInv(EmptyRing(len), steps);
    assert ReaderOk(After(EmptyRing(len), steps), p);
  }

  /** What a call recorded, and that it has finished, is never changed afterwards. */
  lemma RecordsAreFinal(r: Ring, st: TraceStep, s: nat)
    requires TraceInv(r) && Enabled(r, st) && Done(r, s)
    ensures Done(Apply(r, st), s) && Apply(r, st).writers[s].record == r.writers[s].record
  {
    assert WriterOk(r, s);
  }
}
