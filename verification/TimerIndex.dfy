/**
 The open-addressing index of the deadline queue: which slot a probe finds, and
 that no empty slot ever cuts a probe chain short.
 */
module TimerIndex {
  import opened Base
  import opened SchedulerSpec

  const MAX_TIMERS: nat := 512
  const INDEX_SLOTS: nat := 1024

  datatype TimerKind =
    | KernelSleep | UserSleep | UserNetworkTimeout | UserRealTimer | UserFutex | NetworkPoll | CompositorFrame

  datatype TimerKey = TimerKey(entity: EntityId, kind: TimerKind)

  datatype TimerAction = Wake(entity: EntityId, latency: Option<nat>) | Expire(kind: TimerKind, pid: nat)

  datatype TimerEntry = TimerEntry(key: TimerKey, deadline: nat, sequence: nat, generation: nat, action: TimerAction)

  datatype IndexSlot = Empty | Tombstone | Occupied(key: TimerKey, heapIndex: nat)

  /** Arithmetic modulo the 64-bit word, then reduced to a slot. */
  function Hash(key: TimerKey): (slot: nat)
    ensures slot < INDEX_SLOTS
  {
    var tag: nat := if key.entity.KernelThread? then 0x9e37_79b9 else 0x85eb_ca6b;
    var kind: nat := match key.kind
      case KernelSleep => 1
      case UserSleep => 2
      case UserNetworkTimeout => 3
      case UserRealTimer => 4
      case NetworkPoll => 5
      case CompositorFrame => 6
      case UserFutex => 7;
    (key.entity.pid * tag + kind) % U64_END * 0xc2b2_ae35 % U64_END % INDEX_SLOTS
  }

  /** The slot an offset along the probe sequence, which wraps. */
  function Probe(start: nat, offset: nat): (slot: nat)
    requires start < 1024 && offset < 1024
    ensures slot < 1024 && slot == (start + offset) % 1024
  {
    if start + offset < 1024 then start + offset else start + offset - 1024
  }

  function Offset(start: nat, slot: nat): (offset: nat)
    requires start < 1024 && slot < 1024
    ensures offset < 1024 && Probe(start, offset) == slot
  {
    if start <= slot then slot - start else slot + 1024 - start
  }

  type Index = s: seq<IndexSlot> | |s| == 1024 witness seq(1024, _ => Empty)

  ghost predicate HoldsKey(index: Index, slot: nat, key: TimerKey) {
    slot < 1024 && index[slot].Occupied? && index[slot].key == key
  }

  /** An occupied slot records the heap position of its key. */
  ghost predicate PositionOk(heap: seq<TimerEntry>, index: Index, slot: nat) {
    slot < 1024 && index[slot].Occupied? ==>
      index[slot].heapIndex < |heap| && heap[index[slot].heapIndex].key == index[slot].key
  }

  /** No empty slot lies before an occupied one on its key's probe sequence. */
  ghost predicate ChainOk(index: Index, slot: nat, offset: nat) {
    slot < 1024 && index[slot].Occupied? && offset < Offset(Hash(index[slot].key), slot) ==>
      !index[Probe(Hash(index[slot].key), offset)].Empty?
  }

  /** Every heap entry has a slot. */
  ghost predicate Indexed(heap: seq<TimerEntry>, index: Index, h: nat) {
    h < |heap| ==> exists slot: nat :: HoldsKey(index, slot, heap[h].key) && index[slot].heapIndex == h
  }

  /** A key sits in one slot only. */
  ghost predicate OneSlot(index: Index, a: nat, b: nat) {
    a < 1024 && b < 1024 && index[a].Occupied? && HoldsKey(index, b, index[a].key) ==> a == b
  }

  ghost predicate ChainsOk(index: Index) {
    (forall slot: nat, offset: nat :: ChainOk(index, slot, offset)) && (forall a: nat, b: nat :: OneSlot(index, a, b))
  }

  ghost predicate IndexOk(heap: seq<TimerEntry>, index: Index) {
    && ChainsOk(index)
    && (forall slot: nat :: PositionOk(heap, index, slot)) && (forall h: nat :: Indexed(heap, index, h))
  }

  // --------------------------------------------------------------------- probing

  /** The first `n` probes of a key neither are empty nor hold it. */
  ghost predicate Missed(index: Index, key: TimerKey, n: nat) {
    forall offset: nat | offset < n && offset < 1024 ::
      !index[Probe(Hash(key), offset)].Empty? && !HoldsKey(index, Probe(Hash(key), offset), key)
  }

  /** A probe sequence that reaches an empty slot has shown the key absent. */
  lemma ProbeEnds(index: Index, key: TimerKey, n: nat, slot: nat)
    requires ChainsOk(index) && Missed(index, key, n) && HoldsKey(index, slot, key)
    ensures n <= Offset(Hash(key), slot)
    ensures n < 1024 ==> !index[Probe(Hash(key), n)].Empty?
  {
    var d := Offset(Hash(key), slot);
    if n < d {
      assert ChainOk(index, slot, n);
    }
  }

  method LookupSlot(index: array<IndexSlot>, key: TimerKey) returns (r: Option<nat>)
    requires index.Length == 1024 && ChainsOk(index[..])
    ensures r.Some? ==> HoldsKey(index[..], r.value, key)
    ensures r.None? ==> forall slot :: !HoldsKey(index[..], slot, key)
  {
    var start := Hash(key);
    var offset := 0;
    while offset < 1024
      invariant 0 <= offset <= 1024 && Missed(index[..], key, offset)
    {
      var slot := Probe(start, offset);
      assert index[..][slot] == index[slot];
      match index[slot] {
        case Empty =>
          forall s | HoldsKey(index[..], s, key)
            ensures false
          {
            ProbeEnds(index[..], key, offset, s);
          }
          return None;
        case Occupied(candidate, _) =>
          if candidate == key {
            return Some(slot);
          }
        case Tombstone =>
      }
      offset := offset + 1;
    }
    forall s | HoldsKey(index[..], s, key)
      ensures false
    {
      ProbeEnds(index[..], key, offset, s);
    }
    return None;
  }

  /** A slot where an absent key may be put. */
  ghost predicate Insertable(index: Index, key: TimerKey, slot: nat) {
    && slot < 1024 && !index[slot].Occupied?
    && forall offset: nat | offset < Offset(Hash(key), slot) :: !index[Probe(Hash(key), offset)].Empty?
  }

  method InsertionSlot(index: array<IndexSlot>, key: TimerKey) returns (r: Option<nat>)
    requires index.Length == 1024 && forall slot :: !HoldsKey(index[..], slot, key)
    ensures r.Some? ==> Insertable(index[..], key, r.value)
    ensures r.None? ==> forall slot | 0 <= slot < 1024 :: index[slot].Occupied?
  {
    var start := Hash(key);
    var tombstone: Option<nat> := None;
    var offset := 0;
    while offset < 1024
      invariant 0 <= offset <= 1024
      invariant forall k: nat | k < offset && k < 1024 :: !index[Probe(start, k)].Empty?
      invariant tombstone.Some? ==>
                  Insertable(index[..], key, tombstone.value) && Offset(start, tombstone.value) < offset
      invariant tombstone.None? ==> forall k: nat | k < offset && k < 1024 :: index[Probe(start, k)].Occupied?
    {
      var slot := Probe(start, offset);
      assert index[..][slot] == index[slot] && Offset(start, slot) == offset;
      match index[slot] {
        case Empty =>
          r := if tombstone.Some? then tombstone else Some(slot);
          return;
        case Tombstone =>
          if tombstone.None? {
            tombstone := Some(slot);
          }
        case Occupied(candidate, _) =>
          assert candidate != key by {
            assert !HoldsKey(index[..], slot, key);
          }
      }
      offset := offset + 1;
    }
    if tombstone.None? {
      forall slot | 0 <= slot < 1024
        ensures index[slot].Occupied?
      {
        assert index[Probe(start, Offset(start, slot))].Occupied?;
      }
    }
    return tombstone;
  }

  // --------------------------------------------------------------------- updates

  /** Heap positions named by the first `n` slots. */
  ghost function Positions(index: Index, n: nat): set<nat>
    requires n <= 1024
  {
    set slot: nat | slot < n && index[slot].Occupied? :: index[slot].heapIndex
  }

  lemma PositionsDistinct(heap: seq<TimerEntry>, index: Index, a: nat, b: nat)
    requires IndexOk(heap, index) && a < 1024 && b < 1024 && index[a].Occupied? && index[b].Occupied?
    requires index[a].heapIndex == index[b].heapIndex
    ensures a == b
  {
    assert PositionOk(heap, index, a) && PositionOk(heap, index, b);
    assert OneSlot(index, a, b);
  }

  lemma {:induction false} PositionsCard(heap: seq<TimerEntry>, index: Index, n: nat)
    requires IndexOk(heap, index) && n <= 1024 && forall slot: nat | slot < n :: index[slot].Occupied?
    ensures |Positions(index, n)| == n
  {
    if 0 < n {
      PositionsCard(heap, index, n - 1);
      var last := index[n - 1].heapIndex;
      assert Positions(index, n) == Positions(index, n - 1) + {last};
      if last in Positions(index, n - 1) {
        var slot: nat :| slot < n - 1 && index[slot].Occupied? && index[slot].heapIndex == last;
        PositionsDistinct(heap, index, slot, n - 1);
      }
    }
  }

  lemma {:induction false} BelowCard(s: set<nat>, n: nat)
    requires forall x | x in s :: x < n
    ensures |s| <= n
  {
    if n == 0 {
      assert s == {};
    } else {
      BelowCard(s - {n - 1}, n - 1);
      if n - 1 !in s {
        assert s - {n - 1} == s;
      }
    }
  }

  /** With at most 512 timers some slot is always open. */
  lemma SlotOpen(heap: seq<TimerEntry>, index: Index)
    requires IndexOk(heap, index) && |heap| <= MAX_TIMERS
    ensures !(forall slot: nat | slot < 1024 :: index[slot].Occupied?)
  {
    if forall slot: nat | slot < 1024 :: index[slot].Occupied? {
      PositionsCard(heap, index, 1024);
      forall x | x in Positions(index, 1024)
        ensures x < |heap|
      {
        var slot: nat :| slot < 1024 && index[slot].Occupied? && index[slot].heapIndex == x;
        assert PositionOk(heap, index, slot);
      }
      BelowCard(Positions(index, 1024), |heap|);
    }
  }

  /** Recording a new position for a key that is there. */
  lemma MoveChains(index: Index, slot: nat, h: nat)
    requires ChainsOk(index) && slot < 1024 && index[slot].Occupied?
    ensures ChainsOk(index[slot := Occupied(index[slot].key, h)])
  {
    var after: Index := index[slot := Occupied(index[slot].key, h)];
    forall s: nat, offset: nat
      ensures ChainOk(after, s, offset)
    {
      assert ChainOk(index, s, offset);
    }
    forall a: nat, b: nat
      ensures OneSlot(after, a, b)
    {
      assert OneSlot(index, a, b);
    }
  }

  /** A tombstone keeps every chain that passes through it. */
  lemma TombstoneChains(index: Index, slot: nat)
    requires ChainsOk(index) && slot < 1024
    ensures ChainsOk(index[slot := Tombstone])
  {
    var after: Index := index[slot := Tombstone];
    forall s: nat, offset: nat
      ensures ChainOk(after, s, offset)
    {
      assert ChainOk(index, s, offset);
    }
    forall a: nat, b: nat
      ensures OneSlot(after, a, b)
    {
      assert OneSlot(index, a, b);
    }
  }

  lemma InsertChains(index: Index, slot: nat, key: TimerKey, h: nat)
    requires ChainsOk(index) && Insertable(index, key, slot) && forall s :: !HoldsKey(index, s, key)
    ensures ChainsOk(index[slot := Occupied(key, h)])
  {
    var after: Index := index[slot := Occupied(key, h)];
    forall s: nat, offset: nat
      ensures ChainOk(after, s, offset)
    {
      assert ChainOk(index, s, offset);
    }
    forall a: nat, b: nat
      ensures OneSlot(after, a, b)
    {
      assert OneSlot(index, a, b) && !HoldsKey(index, a, key) && !HoldsKey(index, b, key);
    }
  }

  function SwapEntries(heap: seq<TimerEntry>, a: nat, b: nat): (r: seq<TimerEntry>)
    requires a < |heap| && b < |heap|
    ensures |r| == |heap|
  {
    heap[a := heap[b]][b := heap[a]]
  }

  /** Two heap positions exchanged in the heap and in the index. */
  lemma SwapIndex(heap: seq<TimerEntry>, index: Index, a: nat, b: nat, x: nat, y: nat)
    requires IndexOk(heap, index) && a < |heap| && b < |heap| && a != b
    requires HoldsKey(index, x, heap[a].key) && HoldsKey(index, y, heap[b].key)
    ensures index[x].heapIndex == a && index[y].heapIndex == b && x != y
    ensures IndexOk(SwapEntries(heap, a, b), index[y := Occupied(heap[b].key, a)][x := Occupied(heap[a].key, b)])
  {
    SlotOf(heap, index, a, x);
    SlotOf(heap, index, b, y);
    var after := SwapEntries(heap, a, b);
    var middle: Index := index[y := Occupied(heap[b].key, a)];
    var final: Index := middle[x := Occupied(heap[a].key, b)];
    MoveChains(index, y, a);
    MoveChains(middle, x, b);
    forall slot: nat
      ensures PositionOk(after, final, slot)
    {
      assert PositionOk(heap, index, slot) && OneSlot(index, x, slot) && OneSlot(index, y, slot);
      if slot < 1024 && slot != x && slot != y && index[slot].Occupied? {
        assert index[slot].heapIndex != a && index[slot].heapIndex != b;
      }
    }
    forall h: nat
      ensures Indexed(after, final, h)
    {
      if h < |heap| {
        SwapIndexed(heap, index, a, b, x, y, h);
      }
    }
  }

  lemma SwapIndexed(heap: seq<TimerEntry>, index: Index, a: nat, b: nat, x: nat, y: nat, h: nat)
    requires IndexOk(heap, index) && a < |heap| && b < |heap| && a != b && h < |heap| && x != y
    requires HoldsKey(index, x, heap[a].key) && HoldsKey(index, y, heap[b].key)
    requires index[x].heapIndex == a && index[y].heapIndex == b
    ensures Indexed(SwapEntries(heap, a, b), index[y := Occupied(heap[b].key, a)][x := Occupied(heap[a].key, b)], h)
  {
    var after := SwapEntries(heap, a, b);
    var final: Index := index[y := Occupied(heap[b].key, a)][x := Occupied(heap[a].key, b)];
    if h == a {
      assert HoldsKey(final, y, after[h].key) && final[y].heapIndex == h;
    } else if h == b {
      assert HoldsKey(final, x, after[h].key) && final[x].heapIndex == h;
    } else {
      assert Indexed(heap, index, h);
      var slot: nat :| HoldsKey(index, slot, heap[h].key) && index[slot].heapIndex == h;
      assert HoldsKey(final, slot, after[h].key) && final[slot].heapIndex == h;
    }
  }

  /** The slot that holds a heap entry's key records its position. */
  lemma SlotOf(heap: seq<TimerEntry>, index: Index, h: nat, slot: nat)
    requires IndexOk(heap, index) && h < |heap| && HoldsKey(index, slot, heap[h].key)
    ensures index[slot].heapIndex == h
  {
    assert Indexed(heap, index, h);
    var s: nat :| HoldsKey(index, s, heap[h].key) && index[s].heapIndex == h;
    assert OneSlot(index, s, slot);
  }

  lemma KeysDistinct(heap: seq<TimerEntry>, index: Index, g: nat, h: nat)
    requires IndexOk(heap, index) && g < |heap| && h < |heap| && heap[g].key == heap[h].key
    ensures g == h
  {
    assert Indexed(heap, index, g);
    var s: nat :| HoldsKey(index, s, heap[g].key) && index[s].heapIndex == g;
    SlotOf(heap, index, h, s);
  }

  /** A new key appended to the heap and entered in the index. */
  lemma PushIndex(heap: seq<TimerEntry>, index: Index, e: TimerEntry, slot: nat)
    requires IndexOk(heap, index) && Insertable(index, e.key, slot) && forall s :: !HoldsKey(index, s, e.key)
    ensures IndexOk(heap + [e], index[slot := Occupied(e.key, |heap|)])
  {
    var after, final: Index := heap + [e], index[slot := Occupied(e.key, |heap|)];
    InsertChains(index, slot, e.key, |heap|);
    forall s: nat
      ensures PositionOk(after, final, s)
    {
      assert PositionOk(heap, index, s);
    }
    forall h: nat
      ensures Indexed(after, final, h)
    {
      if h == |heap| {
        assert HoldsKey(final, slot, after[h].key) && final[slot].heapIndex == h;
      } else if h < |heap| {
        assert Indexed(heap, index, h);
        var s: nat :| HoldsKey(index, s, heap[h].key) && index[s].heapIndex == h;
        assert HoldsKey(final, s, after[h].key) && final[s].heapIndex == h;
      }
    }
  }

  /** The last heap entry dropped from heap and index. */
  lemma PopIndex(heap: seq<TimerEntry>, index: Index, slot: nat)
    requires IndexOk(heap, index) && 0 < |heap| && HoldsKey(index, slot, heap[|heap| - 1].key)
    ensures IndexOk(heap[..|heap| - 1], index[slot := Tombstone])
  {
    var n := |heap| - 1;
    var after, final: Index := heap[..n], index[slot := Tombstone];
    SlotOf(heap, index, n, slot);
    TombstoneChains(index, slot);
    forall s: nat
      ensures PositionOk(after, final, s)
    {
      assert PositionOk(heap, index, s);
      if s < 1024 && s != slot && index[s].Occupied? && index[s].heapIndex == n {
        PositionsDistinct(heap, index, slot, s);
      }
    }
    forall h: nat
      ensures Indexed(after, final, h)
    {
      if h < n {
        assert Indexed(heap, index, h);
        var s: nat :| HoldsKey(index, s, heap[h].key) && index[s].heapIndex == h;
        assert HoldsKey(final, s, after[h].key) && final[s].heapIndex == h;
      }
    }
  }

  /** An entry overwritten under the same key. */
  lemma UpdateIndex(heap: seq<TimerEntry>, index: Index, h: nat, e: TimerEntry)
    requires IndexOk(heap, index) && h < |heap| && e.key == heap[h].key
    ensures IndexOk(heap[h := e], index)
  {
    var after := heap[h := e];
    forall s: nat
      ensures PositionOk(after, index, s)
    {
      assert PositionOk(heap, index, s);
    }
    forall g: nat
      ensures Indexed(after, index, g)
    {
      assert Indexed(heap, index, g);
    }
  }
}
