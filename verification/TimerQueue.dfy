/** Order of the deadline heap, and what the heap stands for. */
module TimerHeap {
  import opened TimerIndex

  /** Earlier deadline first; arming order on ties. */
  predicate Less(a: TimerEntry, b: TimerEntry) {
    a.deadline < b.deadline || (a.deadline == b.deadline && a.sequence < b.sequence)
  }

  ghost predicate OrderAt(heap: seq<TimerEntry>, i: nat) {
    0 < i < |heap| ==> !Less(heap[i], heap[(i - 1) / 2])
  }

  ghost predicate HeapOk(heap: seq<TimerEntry>) {
    forall i: nat :: OrderAt(heap, i)
  }

  /** The children of `k` are in order with the parent of `k`. */
  ghost predicate Bridged(heap: seq<TimerEntry>, k: nat) {
    0 < k < |heap| ==>
      && (2 * k + 1 < |heap| ==> !Less(heap[2 * k + 1], heap[(k - 1) / 2]))
      && (2 * k + 2 < |heap| ==> !Less(heap[2 * k + 2], heap[(k - 1) / 2]))
  }

  /** In order but for `k` and its parent. */
  ghost predicate UpOk(heap: seq<TimerEntry>, k: nat) {
    (forall i: nat :: i != k ==> OrderAt(heap, i)) && Bridged(heap, k)
  }

  /** In order but for `k` and its children. */
  ghost predicate DownOk(heap: seq<TimerEntry>, k: nat) {
    (forall i: nat :: i != 2 * k + 1 && i != 2 * k + 2 ==> OrderAt(heap, i)) && Bridged(heap, k)
  }

  /** In order but for `k` and its neighbours on both sides. */
  ghost predicate OrderedBut(heap: seq<TimerEntry>, k: nat) {
    (forall i: nat :: i != k && i != 2 * k + 1 && i != 2 * k + 2 ==> OrderAt(heap, i)) && Bridged(heap, k)
  }

  lemma SiftUpStep(heap: seq<TimerEntry>, k: nat)
    requires 0 < k < |heap| && UpOk(heap, k) && Less(heap[k], heap[(k - 1) / 2])
    ensures UpOk(SwapEntries(heap, k, (k - 1) / 2), (k - 1) / 2)
  {
    var p := (k - 1) / 2;
    var after := SwapEntries(heap, k, p);
    forall i: nat | i != p
      ensures OrderAt(after, i)
    {
      assert OrderAt(heap, i) || i == k;
      assert OrderAt(heap, p);
    }
    if 0 < p {
      assert OrderAt(heap, 2 * p + 1) || 2 * p + 1 == k;
      assert OrderAt(heap, 2 * p + 2) || 2 * p + 2 == k;
      assert OrderAt(heap, p);
    }
  }

  lemma SiftUpDone(heap: seq<TimerEntry>, k: nat)
    requires UpOk(heap, k) && k < |heap| && (k == 0 || !Less(heap[k], heap[(k - 1) / 2]))
    ensures HeapOk(heap)
  {
  }

  lemma SiftDownStep(heap: seq<TimerEntry>, k: nat, c: nat)
    requires k < |heap| && DownOk(heap, k) && c < |heap| && (c == 2 * k + 1 || c == 2 * k + 2)
    requires Less(heap[c], heap[k])
    requires 2 * k + 1 < |heap| ==> !Less(heap[2 * k + 1], heap[c])
    requires 2 * k + 2 < |heap| ==> !Less(heap[2 * k + 2], heap[c])
    ensures DownOk(SwapEntries(heap, k, c), c)
  {
    var after := SwapEntries(heap, k, c);
    forall i: nat | i != 2 * c + 1 && i != 2 * c + 2
      ensures OrderAt(after, i)
    {
      assert OrderAt(heap, i) || i == 2 * k + 1 || i == 2 * k + 2;
    }
    assert OrderAt(heap, 2 * c + 1) && OrderAt(heap, 2 * c + 2);
  }

  lemma SiftDownDone(heap: seq<TimerEntry>, k: nat)
    requires DownOk(heap, k) && k < |heap|
    requires 2 * k + 1 < |heap| ==> !Less(heap[2 * k + 1], heap[k])
    requires 2 * k + 2 < |heap| ==> !Less(heap[2 * k + 2], heap[k])
    ensures HeapOk(heap)
  {
    forall i: nat
      ensures OrderAt(heap, i)
    {
      assert OrderAt(heap, i) || i == 2 * k + 1 || i == 2 * k + 2;
    }
  }

  lemma RepairSides(heap: seq<TimerEntry>, k: nat)
    requires k < |heap| && OrderedBut(heap, k)
    ensures 0 < k && Less(heap[k], heap[(k - 1) / 2]) ==> UpOk(heap, k)
    ensures k == 0 || !Less(heap[k], heap[(k - 1) / 2]) ==> DownOk(heap, k)
  {
    if 0 < k && Less(heap[k], heap[(k - 1) / 2]) {
      forall i: nat | i != k
        ensures OrderAt(heap, i)
      {
        assert OrderAt(heap, i) || i == 2 * k + 1 || i == 2 * k + 2;
      }
    } else {
      forall i: nat | i != 2 * k + 1 && i != 2 * k + 2
        ensures OrderAt(heap, i)
      {
        assert OrderAt(heap, i) || i == k;
      }
    }
  }

  /** Overwriting one entry of an ordered heap. */
  lemma UpdatedBut(heap: seq<TimerEntry>, k: nat, e: TimerEntry)
    requires HeapOk(heap) && k < |heap|
    ensures OrderedBut(heap[k := e], k)
  {
    var after := heap[k := e];
    forall i: nat | i != k && i != 2 * k + 1 && i != 2 * k + 2
      ensures OrderAt(after, i)
    {
      assert OrderAt(heap, i);
    }
    assert OrderAt(heap, k) && OrderAt(heap, 2 * k + 1) && OrderAt(heap, 2 * k + 2);
  }

  lemma PushedUp(heap: seq<TimerEntry>, e: TimerEntry)
    requires HeapOk(heap)
    ensures UpOk(heap + [e], |heap|)
  {
    forall i: nat | i != |heap|
      ensures OrderAt(heap + [e], i)
    {
      assert OrderAt(heap, i);
    }
  }

  /** The last entry moved into the place of a removed one. */
  lemma SwapRemoved(heap: seq<TimerEntry>, k: nat)
    requires HeapOk(heap) && k < |heap|
    ensures var n := |heap| - 1;
            if k < n then OrderedBut(heap[k := heap[n]][..n], k) else HeapOk(heap[..n])
  {
    var n := |heap| - 1;
    var e := heap[n];
    UpdatedBut(heap, k, e);
    var after := heap[k := e][..n];
    if k < n {
      forall i: nat | i != k && i != 2 * k + 1 && i != 2 * k + 2
        ensures OrderAt(after, i)
      {
        assert OrderAt(heap[k := e], i);
      }
    } else {
      forall i: nat
        ensures OrderAt(heap[..n], i)
      {
        assert OrderAt(heap, i);
      }
    }
  }

  /** Nothing is before the root. */
  lemma {:induction false} RootIsLeast(heap: seq<TimerEntry>, h: nat)
    requires HeapOk(heap) && h < |heap|
    ensures !Less(heap[h], heap[0])
  {
    if 0 < h {
      RootIsLeast(heap, (h - 1) / 2);
      assert OrderAt(heap, h);
    }
  }

  // ------------------------------------------------------------ the map it stands for

  ghost predicate EntryIn(heap: seq<TimerEntry>, live: map<TimerKey, TimerEntry>, h: nat) {
    h < |heap| ==> heap[h].key in live && live[heap[h].key] == heap[h]
  }

  ghost predicate KeyIn(heap: seq<TimerEntry>, live: map<TimerKey, TimerEntry>, key: TimerKey) {
    key in live ==> exists h: nat :: h < |heap| && heap[h].key == key
  }

  ghost predicate Represents(heap: seq<TimerEntry>, live: map<TimerKey, TimerEntry>) {
    (forall h: nat :: EntryIn(heap, live, h)) && (forall key :: KeyIn(heap, live, key))
  }

  lemma SwapRepresents(heap: seq<TimerEntry>, live: map<TimerKey, TimerEntry>, a: nat, b: nat)
    requires Represents(heap, live) && a < |heap| && b < |heap|
    ensures Represents(SwapEntries(heap, a, b), live)
  {
    var after := SwapEntries(heap, a, b);
    forall h: nat
      ensures EntryIn(after, live, h)
    {
      assert EntryIn(heap, live, h) && EntryIn(heap, live, a) && EntryIn(heap, live, b);
    }
    forall key
      ensures KeyIn(after, live, key)
    {
      assert KeyIn(heap, live, key);
      if key in live {
        var h: nat :| h < |heap| && heap[h].key == key;
        var g := if h == a then b else if h == b then a else h;
        assert after[g].key == key;
      }
    }
  }

  ghost predicate DistinctKeys(heap: seq<TimerEntry>) {
    forall g: nat, h: nat | g < |heap| && h < |heap| && heap[g].key == heap[h].key :: g == h
  }

  lemma UpdateRepresents(heap: seq<TimerEntry>, live: map<TimerKey, TimerEntry>, k: nat, e: TimerEntry)
    requires Represents(heap, live) && k < |heap| && e.key == heap[k].key && DistinctKeys(heap)
    ensures Represents(heap[k := e], live[e.key := e])
  {
    var after, live' := heap[k := e], live[e.key := e];
    forall h: nat
      ensures EntryIn(after, live', h)
    {
      assert EntryIn(heap, live, h);
    }
    forall key
      ensures KeyIn(after, live', key)
    {
      assert KeyIn(heap, live, key) && after[k].key == e.key;
      if key in live && key != e.key {
        var h: nat :| h < |heap| && heap[h].key == key;
        assert after[h].key == key;
      }
    }
  }

  lemma PushRepresents(heap: seq<TimerEntry>, live: map<TimerKey, TimerEntry>, e: TimerEntry)
    requires Represents(heap, live) && e.key !in live
    ensures Represents(heap + [e], live[e.key := e])
  {
    var after, live' := heap + [e], live[e.key := e];
    forall h: nat
      ensures EntryIn(after, live', h)
    {
      assert EntryIn(heap, live, h);
    }
    forall key
      ensures KeyIn(after, live', key)
    {
      assert KeyIn(heap, live, key) && after[|heap|].key == e.key;
      if key in live {
        var h: nat :| h < |heap| && heap[h].key == key;
        assert after[h].key == key;
      }
    }
  }

  lemma PopRepresents(heap: seq<TimerEntry>, live: map<TimerKey, TimerEntry>)
    requires Represents(heap, live) && 0 < |heap| && DistinctKeys(heap)
    ensures Represents(heap[..|heap| - 1], live - {heap[|heap| - 1].key})
  {
    var n := |heap| - 1;
    var after, live' := heap[..n], live - {heap[n].key};
    forall h: nat
      ensures EntryIn(after, live', h)
    {
      assert EntryIn(heap, live, h);
    }
    forall key
      ensures KeyIn(after, live', key)
    {
      assert KeyIn(heap, live, key);
      if key in live' {
        var h: nat :| h < |heap| && heap[h].key == key;
        assert after[h].key == key;
      }
    }
  }

  lemma {:induction false} LiveCard(heap: seq<TimerEntry>, live: map<TimerKey, TimerEntry>)
    requires Represents(heap, live) && DistinctKeys(heap)
    ensures |live| == |heap|
  {
    if heap == [] {
      forall key
        ensures key !in live
      {
        assert KeyIn(heap, live, key);
      }
      assert live == map[];
    } else {
      var n := |heap| - 1;
      assert EntryIn(heap, live, n);
      PopRepresents(heap, live);
      LiveCard(heap[..n], live - {heap[n].key});
      assert (live - {heap[n].key}).Keys == live.Keys - {heap[n].key};
    }
  }
}

module TimerQueues {
  import opened Base
  import opened SchedulerSpec
  import opened TimerIndex
  import opened TimerHeap

  const MAX_TIMER_EXPIRATIONS_PER_PASS: nat := 32
  const NO_DEADLINE: nat := 0xFFFF_FFFF_FFFF_FFFF

  class TimerQueue {
    var heap: seq<TimerEntry>
    const index: array<IndexSlot>
    var nextSequence: nat
    var highWater: nat
    var capacityFailures: nat
    /** The armed timers. */
    ghost var live: map<TimerKey, TimerEntry>
    /** How many sequence numbers were given out. */
    ghost var issued: nat

    ghost predicate Linked()
      reads this, index
    {
      index.Length == 1024 && IndexOk(heap, index[..]) && Represents(heap, live)
    }

    ghost predicate Ordered()
      reads this, index
    {
      Linked() && |heap| <= MAX_TIMERS && HeapOk(heap)
    }

    ghost predicate Valid()
      reads this, index
    {
      Ordered() && nextSequence == issued % U64_END && Numbered(live, issued)
    }

    constructor ()
      ensures Valid() && live == map[] && fresh(index)
    {
      heap := [];
      index := new IndexSlot[INDEX_SLOTS](_ => Empty);
      nextSequence := 0;
      highWater := 0;
      capacityFailures := 0;
      live := map[];
      issued := 0;
    }

    /** Position of a key's timer in the heap. */
    method HeapIndex(key: TimerKey) returns (r: Option<nat>)
      requires Linked()
      ensures r.Some? <==> key in live
      ensures r.Some? ==> r.value < |heap| && heap[r.value].key == key && heap[r.value] == live[key]
      ensures r.None? ==> forall slot :: !HoldsKey(index[..], slot, key)
    {
      var slot := LookupSlot(index, key);
      if slot.None? {
        AbsentKey(heap, index[..], live, key);
        return None;
      }
      assert PositionOk(heap, index[..], slot.value);
      r := Some(index[slot.value].heapIndex);
      assert EntryIn(heap, live, r.value);
    }

    /** Exchanges two heap entries and records their new positions. */
    method SwapHeap(a: nat, b: nat)
      requires Linked() && a < |heap| && b < |heap| && a != b
      modifies this`heap, index
      ensures Linked() && heap == SwapEntries(old(heap), a, b)
    {
      ghost var was, before := heap, index[..];
      heap := heap[a := heap[b]][b := heap[a]];
      SwapRepresents(was, live, a, b);
      var y := PresentSlot(was, b, heap[a].key);
      index[y] := Occupied(heap[a].key, a);
      ghost var middle := index[..];
      assert middle == before[y := Occupied(was[b].key, a)];
      SwapSecond(was, before, a, b, y);
      ghost var held: nat :| HoldsKey(middle, held, was[a].key);
      var x := LookupSlot(index, heap[b].key);
      assert x.Some? by {
        assert HoldsKey(index[..], held, heap[b].key);
      }
      SwapFirst(was, before, a, b, x.value, y);
      index[x.value] := Occupied(heap[b].key, b);
      assert index[..] == middle[x.value := Occupied(was[a].key, b)];
    }

    /** The slot of a key that is in the heap. */
    method PresentSlot(ghost was: seq<TimerEntry>, ghost h: nat, key: TimerKey) returns (slot: nat)
      requires index.Length == 1024 && IndexOk(was, index[..]) && h < |was| && was[h].key == key
      ensures HoldsKey(index[..], slot, key)
    {
      assert Indexed(was, index[..], h);
      ghost var held: nat :| HoldsKey(index[..], held, key);
      var r := LookupSlot(index, key);
      assert r.Some? by {
        assert HoldsKey(index[..], held, key);
      }
      return r.value;
    }

    method SiftUp(k: nat)
      requires Linked() && k < |heap| && UpOk(heap, k)
      modifies this`heap, index
      ensures Linked() && HeapOk(heap) && |heap| == |old(heap)|
    {
      hide IndexOk, Represents, UpOk;
      var at: nat := k;
      while 0 < at
        invariant at < |heap| && Linked() && UpOk(heap, at) && |heap| == |old(heap)|
      {
        var parent := (at - 1) / 2;
        if !Less(heap[at], heap[parent]) {
          break;
        }
        SiftUpStep(heap, at);
        SwapHeap(at, parent);
        at := parent;
      }
      SiftUpDone(heap, at);
    }

    method SiftDown(k: nat)
      requires Linked() && k < |heap| && DownOk(heap, k)
      modifies this`heap, index
      ensures Linked() && HeapOk(heap) && |heap| == |old(heap)|
    {
      hide IndexOk, Represents, DownOk;
      var at: nat := k;
      while true
        invariant at < |heap| && Linked() && DownOk(heap, at) && |heap| == |old(heap)|
        decreases |heap| - at
      {
        var left := at * 2 + 1;
        if |heap| <= left {
          break;
        }
        var right := left + 1;
        var child := if right < |heap| && Less(heap[right], heap[left]) then right else left;
        if !Less(heap[child], heap[at]) {
          break;
        }
        SiftDownStep(heap, at, child);
        SwapHeap(at, child);
        at := child;
      }
      SiftDownDone(heap, at);
    }

    method Repair(k: nat)
      requires Linked() && k < |heap| && OrderedBut(heap, k)
      modifies this`heap, index
      ensures Linked() && HeapOk(heap) && |heap| == |old(heap)|
    {
      RepairSides(heap, k);
      if 0 < k && Less(heap[k], heap[(k - 1) / 2]) {
        SiftUp(k);
      } else {
        SiftDown(k);
      }
    }

    /** Arms a timer; only a new one can be refused, and only when 512 are live. */
    method Arm(key: TimerKey, deadline: nat, action: TimerAction) returns (r: Result<nat, ()>)
      requires Valid()
      modifies this, index
      ensures Valid()
      ensures r.Err? <==> key !in old(live) && |old(live)| == MAX_TIMERS
      ensures r.Err? ==> live == old(live)
      ensures r.Ok? && key in old(live) ==>
                && r.value == (old(live)[key].generation + 1) % U64_END
                && live == old(live)[key :=
                     old(live)[key].(deadline := deadline, generation := r.value, action := action)]
      ensures r.Ok? && key in old(live) ==> live[key].sequence == old(live)[key].sequence
      ensures r.Ok? && key !in old(live) ==>
                r.value == 1 && live == old(live)[key := TimerEntry(key, deadline, old(nextSequence), 1, action)]
      ensures issued == old(issued) + if r.Ok? && key !in old(live) then 1 else 0
    {
      hide IndexOk, Represents, HeapOk, Numbered;
      AllDistinct(heap, index[..]);
      LiveCard(heap, live);
      var at := HeapIndex(key);
      if at.Some? {
        var generation := (heap[at.value].generation + 1) % U64_END;
        var e := heap[at.value].(deadline := deadline, generation := generation, action := action);
        NumberedAgain(live, issued, key, e);
        Rewrite(at.value, e);
        return Ok(generation);
      }
      if |heap| >= MAX_TIMERS {
        capacityFailures := SaturatingAdd(capacityFailures, 1);
        return Err(());
      }
      var sequence := nextSequence;
      nextSequence := (nextSequence + 1) % U64_END;
      var e := TimerEntry(key, deadline, sequence, 1, action);
      NumberedNext(live, issued, e);
      issued := issued + 1;
      Push(e);
      highWater := Max(highWater, |heap|);
      return Ok(1);
    }

    method Rewrite(k: nat, e: TimerEntry)
      requires Ordered() && k < |heap| && e.key == heap[k].key
      modifies this`heap, this`live, index
      ensures Ordered() && live == old(live)[e.key := e]
    {
      AllDistinct(heap, index[..]);
      UpdateRepresents(heap, live, k, e);
      UpdateIndex(heap, index[..], k, e);
      UpdatedBut(heap, k, e);
      heap := heap[k := e];
      live := live[e.key := e];
      Repair(k);
    }

    method Push(e: TimerEntry)
      requires Ordered() && |heap| < MAX_TIMERS && e.key !in live && forall slot :: !HoldsKey(index[..], slot, e.key)
      modifies this`heap, this`live, index
      ensures Ordered() && live == old(live)[e.key := e]
    {
      var slot := InsertionSlot(index, e.key);
      SlotOpen(heap, index[..]);
      assert slot.Some?;
      PushIndex(heap, index[..], e, slot.value);
      PushRepresents(heap, live, e);
      PushedUp(heap, e);
      ghost var before := index[..];
      var last := |heap|;
      index[slot.value] := Occupied(e.key, last);
      assert index[..] == before[slot.value := Occupied(e.key, last)];
      heap := heap + [e];
      live := live[e.key := e];
      SiftUp(last);
    }

    /** Removes the entry at a position, filling the gap with the last one. */
    method RemoveAt(k: nat) returns (removed: TimerEntry)
      requires Valid() && k < |heap|
      modifies this`heap, this`live, index
      ensures Valid() && removed == old(heap)[k] && removed.key in old(live) && live == old(live) - {removed.key}
    {
      hide Numbered;
      removed := heap[k];
      assert EntryIn(heap, live, k);
      NumberedLess(live, issued, removed.key);
      SwapRemoved(heap, k);
      DropLast(k);
      if k < |heap| {
        Repair(k);
      }
    }

    /** Tombstones the removed key's slot and moves the last entry into its place. */
    method DropLast(k: nat)
      requires Linked() && k < |heap|
      modifies this`heap, this`live, index
      ensures Linked() && live == old(live) - {old(heap)[k].key}
      ensures var n := |old(heap)| - 1; heap == if k < n then old(heap)[k := old(heap)[n]][..n] else old(heap)[..n]
    {
      ghost var was, before := heap, index[..];
      var last := |heap| - 1;
      AllDistinct(heap, index[..]);
      var slot := PresentSlot(was, k, heap[k].key);
      ghost var y := before;
      if k < last {
        var moved := PresentSlot(was, last, heap[last].key);
        DropLastIndex(was, before, k, slot, moved);
        SwapRepresents(was, live, k, last);
        SwapDistinct(was, k, last);
        PopRepresents(SwapEntries(was, k, last), live);
        index[slot] := Tombstone;
        index[moved] := Occupied(heap[last].key, k);
        assert index[..] == before[slot := Tombstone][moved := Occupied(was[last].key, k)];
        assert SwapEntries(was, k, last)[..last] == was[k := was[last]][..last];
        heap := heap[k := heap[last]][..last];
      } else {
        PopIndex(was, before, slot);
        PopRepresents(was, live);
        index[slot] := Tombstone;
        assert index[..] == before[slot := Tombstone];
        heap := heap[..last];
      }
      live := live - {was[k].key};
    }

    method Cancel(key: TimerKey) returns (cancelled: bool)
      requires Valid()
      modifies this`heap, this`live, index
      ensures Valid() && cancelled == (key in old(live)) && live == old(live) - {key}
    {
      var at := HeapIndex(key);
      if at.None? {
        assert live == live - {key};
        return false;
      }
      var _ := RemoveAt(at.value);
      return true;
    }

    /** Takes the earliest timer if it is due; nothing exactly when none is. */
    method PopDue(now: nat) returns (r: Option<TimerEntry>)
      requires Valid()
      modifies this`heap, this`live, index
      ensures Valid()
      ensures r.None? <==> forall key | key in old(live) :: now < old(live)[key].deadline
      ensures r.None? ==> live == old(live)
      ensures r.Some? ==>
                && r.value.key in old(live) && old(live)[r.value.key] == r.value && r.value.deadline <= now
                && live == old(live) - {r.value.key}
      ensures r.Some? ==>
                forall key | key in old(live) ::
                  || r.value.deadline < old(live)[key].deadline
                  || (r.value.deadline == old(live)[key].deadline && r.value.sequence <= old(live)[key].sequence)
      ensures r.Some? && issued <= U64_END ==>
                forall key | key in old(live) && key != r.value.key :: r.value.sequence != old(live)[key].sequence
    {
      FirstIsLeast(heap, live);
      if |heap| == 0 || now < heap[0].deadline {
        return None;
      }
      var e := RemoveAt(0);
      return Some(e);
    }

    /** The earliest deadline, or the sentinel for none. */
    method Earliest() returns (r: nat)
      requires Valid()
      ensures live == map[] ==> r == NO_DEADLINE
      ensures live != map[] ==>
                && (exists key :: key in live && live[key].deadline == r)
                && forall key | key in live :: r <= live[key].deadline
    {
      FirstIsLeast(heap, live);
      if |heap| == 0 {
        return NO_DEADLINE;
      }
      assert EntryIn(heap, live, 0);
      return heap[0].deadline;
    }
  }

  /** Until the counter wraps, armed timers have different sequence numbers, all given out already. */
  ghost predicate Numbered(live: map<TimerKey, TimerEntry>, issued: nat) {
    issued <= U64_END ==>
      && (forall key | key in live :: live[key].sequence < issued)
      && forall p, q | p in live && q in live && live[p].sequence == live[q].sequence :: p == q
  }

  lemma NumberedNext(live: map<TimerKey, TimerEntry>, issued: nat, e: TimerEntry)
    requires Numbered(live, issued) && e.sequence == issued % U64_END && e.key !in live
    ensures Numbered(live[e.key := e], issued + 1) && (issued % U64_END + 1) % U64_END == (issued + 1) % U64_END
  {
  }

  lemma NumberedAgain(live: map<TimerKey, TimerEntry>, issued: nat, key: TimerKey, e: TimerEntry)
    requires Numbered(live, issued) && key in live && e.sequence == live[key].sequence
    ensures Numbered(live[key := e], issued)
  {
  }

  lemma NumberedLess(live: map<TimerKey, TimerEntry>, issued: nat, key: TimerKey)
    requires Numbered(live, issued)
    ensures Numbered(live - {key}, issued)
  {
  }

  lemma AbsentKey(heap: seq<TimerEntry>, index: Index, live: map<TimerKey, TimerEntry>, key: TimerKey)
    requires IndexOk(heap, index) && Represents(heap, live) && forall slot :: !HoldsKey(index, slot, key)
    ensures key !in live
  {
    assert KeyIn(heap, live, key);
    forall h: nat | h < |heap|
      ensures heap[h].key != key
    {
      assert Indexed(heap, index, h);
    }
  }

  lemma AllDistinct(heap: seq<TimerEntry>, index: Index)
    requires IndexOk(heap, index)
    ensures DistinctKeys(heap)
  {
    forall g: nat, h: nat | g < |heap| && h < |heap| && heap[g].key == heap[h].key
      ensures g == h
    {
      KeysDistinct(heap, index, g, h);
    }
  }

  /** Between the two halves of a swap the first key's slot is unchanged. */
  lemma SwapSecond(was: seq<TimerEntry>, before: Index, a: nat, b: nat, y: nat)
    requires IndexOk(was, before) && a < |was| && b < |was| && a != b && HoldsKey(before, y, was[b].key)
    ensures var middle: Index := before[y := Occupied(was[b].key, a)];
            && ChainsOk(middle) && exists x: nat :: HoldsKey(middle, x, was[a].key)
  {
    MoveChains(before, y, a);
    assert Indexed(was, before, a);
    var x: nat :| HoldsKey(before, x, was[a].key) && before[x].heapIndex == a;
    SlotOf(was, before, b, y);
    assert HoldsKey(before[y := Occupied(was[b].key, a)], x, was[a].key);
  }

  lemma SwapFirst(was: seq<TimerEntry>, before: Index, a: nat, b: nat, x: nat, y: nat)
    requires IndexOk(was, before) && a < |was| && b < |was| && a != b && HoldsKey(before, y, was[b].key)
    requires HoldsKey(before[y := Occupied(was[b].key, a)], x, was[a].key)
    ensures IndexOk(SwapEntries(was, a, b), before[y := Occupied(was[b].key, a)][x := Occupied(was[a].key, b)])
  {
    if x == y {
      KeysDistinct(was, before, a, b);
    }
    SwapIndex(was, before, a, b, x, y);
  }

  lemma SwapDistinct(heap: seq<TimerEntry>, a: nat, b: nat)
    requires DistinctKeys(heap) && a < |heap| && b < |heap|
    ensures DistinctKeys(SwapEntries(heap, a, b))
  {
  }

  lemma DropLastIndex(was: seq<TimerEntry>, before: Index, k: nat, slot: nat, moved: nat)
    requires IndexOk(was, before) && k < |was| - 1
    requires HoldsKey(before, slot, was[k].key) && HoldsKey(before, moved, was[|was| - 1].key)
    ensures slot != moved
    ensures IndexOk(SwapEntries(was, k, |was| - 1)[..|was| - 1],
                    before[slot := Tombstone][moved := Occupied(was[|was| - 1].key, k)])
  {
    var n := |was| - 1;
    if slot == moved {
      KeysDistinct(was, before, k, n);
    }
    SwapIndex(was, before, k, n, slot, moved);
    var swapped: Index := before[moved := Occupied(was[n].key, k)][slot := Occupied(was[k].key, n)];
    PopIndex(SwapEntries(was, k, n), swapped, slot);
    assert swapped[slot := Tombstone] == before[slot := Tombstone][moved := Occupied(was[n].key, k)];
  }

  lemma FirstIsLeast(heap: seq<TimerEntry>, live: map<TimerKey, TimerEntry>)
    requires HeapOk(heap) && Represents(heap, live)
    ensures heap == [] <==> live == map[]
    ensures heap != [] ==> forall key | key in live :: !Less(live[key], heap[0])
    ensures heap != [] ==> heap[0].key in live && live[heap[0].key] == heap[0]
  {
    assert EntryIn(heap, live, 0);
    forall key | key in live
      ensures heap != [] && !Less(live[key], heap[0])
    {
      assert KeyIn(heap, live, key);
      var h: nat :| h < |heap| && heap[h].key == key;
      assert EntryIn(heap, live, h);
      RootIsLeast(heap, h);
    }
  }

  /** The lock-protected queue with the two words that interrupt code reads. */
  class TimerService {
    const queue: TimerQueue
    var earliestDeadline: nat
    var workPending: bool

    ghost predicate Valid()
      reads this, queue, queue.index
    {
      queue.Valid() && EarliestOf(queue.live, earliestDeadline)
    }

    constructor ()
      ensures Valid() && queue.live == map[] && !workPending && fresh(queue) && fresh(queue.index)
    {
      queue := new TimerQueue();
      earliestDeadline := NO_DEADLINE;
      workPending := false;
    }

    /** The armed timers and the work flag. */
    ghost function Seen(): Moment
      reads this, queue
    {
      Moment(queue.live, workPending)
    }

    method PublishEarliest()
      requires queue.Valid()
      modifies this`earliestDeadline
      ensures Valid()
    {
      earliestDeadline := queue.Earliest();
    }

    method Arm(key: TimerKey, deadline: nat, action: TimerAction) returns (r: Result<nat, ()>)
      requires Valid()
      modifies this`earliestDeadline, queue, queue.index
      ensures Valid()
      ensures r.Err? <==> key !in old(queue.live) && |old(queue.live)| == MAX_TIMERS
      ensures r.Err? ==> queue.live == old(queue.live)
      ensures r.Ok? ==> key in queue.live && queue.live[key].deadline == deadline && queue.live[key].action == action
                        && queue.live - {key} == old(queue.live) - {key}
    {
      r := queue.Arm(key, deadline, action);
      if r.Err? {
        return;
      }
      PublishEarliest();
    }

    method Cancel(key: TimerKey) returns (cancelled: bool)
      requires Valid()
      modifies this`earliestDeadline, queue, queue.index
      ensures Valid() && cancelled == (key in old(queue.live)) && queue.live == old(queue.live) - {key}
    {
      cancelled := queue.Cancel(key);
      PublishEarliest();
    }

    /** The clock interrupt: raises the flag if a timer is due or a readiness wake is pending. */
    method OnTick(tick: nat, wakePending: bool)
      requires Valid()
      modifies this`workPending
      ensures Valid() && workPending == (old(workPending) || wakePending || AnyDue(queue.live, tick))
    {
      DueWordExact(queue.live, earliestDeadline, tick);
      if earliestDeadline <= tick || wakePending {
        workPending := true;
      }
    }

    method TakeWorkPending() returns (was: bool)
      modifies this`workPending
      ensures was == old(workPending) && !workPending
    {
      was := workPending;
      workPending := false;
    }

    /** One pop under the lock, with the deadline published. */
    method TakeDue(now: nat) returns (r: Option<TimerEntry>)
      requires Valid()
      modifies this`earliestDeadline, queue, queue.index
      ensures Valid()
      ensures r.None? <==> NoneDue(old(queue.live), now)
      ensures r.None? ==> queue.live == old(queue.live)
      ensures r.Some? ==> EventOk(old(Seen()), Expired(r.value), Seen(), now)
    {
      r := queue.PopDue(now);
      PublishEarliest();
    }

    /** What happens outside the lock: in the delivered action, on another CPU or in an interrupt. */
    method Perform(act: Act)
      requires Valid()
      modifies this, queue, queue.index
      ensures Valid() && ActOk(old(Seen()), act, Seen())
    {
      hide IndexOk, Represents, HeapOk, Numbered, EarliestOf, AnyDue, NoneDue, FirstDue;
      match act
      case ArmTimer(key, deadline, action) =>
        var _ := Arm(key, deadline, action);
      case CancelTimer(key) =>
        var _ := Cancel(key);
      case PopTimer(at) =>
        var _ := TakeDue(at);
      case Tick(tick, wakePending) =>
        OnTick(tick, wakePending);
      case TakeWork =>
        var _ := TakeWorkPending();
    }

    method PerformAll(acts: seq<Act>, ghost events: seq<Event>, ghost past: seq<Moment>, ghost now: nat)
      returns (ghost history: seq<Moment>)
      requires Valid() && Traced(past, events, now) && past[|events|] == Seen()
      modifies this, queue, queue.index
      ensures Valid() && Traced(history, events + Acted(acts), now) && history[|events| + |acts|] == Seen()
      ensures history[..|events| + 1] == past
    {
      hide IndexOk, Represents, HeapOk, ActOk, Numbered;
      history := past;
      assert events + Acted([]) == events;
      var i := 0;
      while i < |acts|
        invariant 0 <= i <= |acts| && Valid() && Traced(history, events + Acted(acts[..i]), now)
        invariant history[..|events| + 1] == past && history[|events| + i] == Seen()
      {
        assert events + Acted(acts[..i + 1]) == events + Acted(acts[..i]) + [Act(acts[i])];
        Perform(acts[i]);
        TraceOne(history, events + Acted(acts[..i]), Act(acts[i]), Seen(), now);
        history := history + [Seen()];
        i := i + 1;
      }
      assert acts[..i] == acts;
    }

    /**
     Delivers due timers, at most 32, the earliest still armed each time, and raises
     the work flag again if more are due. The lock is free before the first delivery,
     during each one and before the last look at the clock word: `before`, `between[i]`
     and `after` are what is then armed, cancelled, popped, ticked and taken, also by
     passes on other CPUs.
     */
    method ProcessDue(now: nat, before: seq<Act>, between: seq<seq<Act>>, after: seq<Act>)
      returns (delivered: seq<TimerEntry>, ghost history: seq<Moment>)
      requires Valid() && MAX_TIMER_EXPIRATIONS_PER_PASS <= |between|
      modifies this, queue, queue.index
      ensures Valid() && |delivered| <= MAX_TIMER_EXPIRATIONS_PER_PASS
      ensures Traced(history, Acted(before) + Woven(delivered, between) + Acted(after), now)
      ensures history[0] == Moment(old(queue.live), false) && history[|history| - 1].live == queue.live
      ensures |delivered| < MAX_TIMER_EXPIRATIONS_PER_PASS ==> NoneDue(history[|history| - 1 - |after|].live, now)
      ensures workPending <==>
                || AnyDue(queue.live, now)
                || Raised(history, Acted(before) + Woven(delivered, between) + Acted(after))
    {
      hide IndexOk, Represents, HeapOk, Numbered, AnyDue, EarliestOf, NoneDue, FirstDue, Raised;
      workPending := false;
      delivered, history := [], [Seen()];
      history := PerformAll(before, [], history, now);
      ghost var events := Acted(before);
      assert [] + Acted(before) == events && events + Woven([], between) == events;
      while |delivered| < MAX_TIMER_EXPIRATIONS_PER_PASS
        invariant Valid() && |delivered| <= MAX_TIMER_EXPIRATIONS_PER_PASS
        invariant events == Acted(before) + Woven(delivered, between)
        invariant Traced(history, events, now) && history[|events|] == Seen()
        invariant history[0] == Moment(old(queue.live), false)
        decreases MAX_TIMER_EXPIRATIONS_PER_PASS - |delivered|
      {
        var e := TakeDue(now);
        if e.None? {
          break;
        }
        TraceOne(history, events, Expired(e.value), Seen(), now);
        history := history + [Seen()];
        events := events + [Expired(e.value)];
        var acts := between[|delivered|];
        history := PerformAll(acts, events, history, now);
        WovenAfter(Acted(before), delivered, e.value, between);
        delivered := delivered + [e.value];
        events := events + Acted(acts);
      }
      ghost var emptied := history;
      history := PerformAll(after, events, history, now);
      assert history[|events|] == emptied[|events|];
      FlagTrace(history, events + Acted(after), now);
      DueWordExact(queue.live, earliestDeadline, now);
      if earliestDeadline <= now {
        workPending := true;
      }
    }
  }

  type Live = map<TimerKey, TimerEntry>

  datatype Moment = Moment(live: Live, pending: bool)

  datatype Act =
    | ArmTimer(key: TimerKey, deadline: nat, action: TimerAction)
    | CancelTimer(key: TimerKey)
    | PopTimer(at: nat)
    | Tick(tick: nat, wakePending: bool)
    | TakeWork

  datatype Event = Expired(entry: TimerEntry) | Act(act: Act)

  ghost predicate NoneDue(live: Live, now: nat) {
    forall key | key in live :: now < live[key].deadline
  }

  /** A timer is due; with none armed, the clock reached the word that stands for none. */
  ghost predicate AnyDue(live: Live, now: nat) {
    (exists key :: key in live && live[key].deadline <= now) || (live == map[] && NO_DEADLINE <= now)
  }

  /** The timer is armed, due, and none armed comes before it. */
  ghost predicate FirstDue(live: Live, x: TimerEntry, now: nat) {
    && x.key in live && live[x.key] == x && x.deadline <= now
    && forall key | key in live ::
         x.deadline < live[key].deadline || (x.deadline == live[key].deadline && x.sequence <= live[key].sequence)
  }

  ghost predicate ActOk(a: Moment, act: Act, b: Moment) {
    match act
    case ArmTimer(key, deadline, action) =>
      && b.pending == a.pending
      && if key !in a.live && |a.live| == MAX_TIMERS then b.live == a.live
         else
           && key in b.live && b.live[key].deadline == deadline && b.live[key].action == action
           && b.live - {key} == a.live - {key}
    case CancelTimer(key) => b == Moment(a.live - {key}, a.pending)
    case PopTimer(at) =>
      if NoneDue(a.live, at) then b == a
      else exists x :: FirstDue(a.live, x, at) && b == Moment(a.live - {x.key}, a.pending)
    case Tick(tick, wakePending) => b == Moment(a.live, a.pending || wakePending || AnyDue(a.live, tick))
    case TakeWork => b == Moment(a.live, false)
  }

  /** One event of a pass. */
  ghost predicate EventOk(a: Moment, e: Event, b: Moment, now: nat) {
    match e
    case Expired(x) => FirstDue(a.live, x, now) && b == Moment(a.live - {x.key}, a.pending)
    case Act(act) => ActOk(a, act, b)
  }

  /** The timers armed and the flag before, between and after the events of a pass. */
  ghost predicate Traced(history: seq<Moment>, events: seq<Event>, now: nat) {
    |history| == |events| + 1 && forall i | 0 <= i < |events| :: EventOk(history[i], events[i], history[i + 1], now)
  }

  /** An event at which the clock interrupt raises the flag. */
  ghost predicate Raises(history: seq<Moment>, events: seq<Event>, i: nat)
    requires |history| == |events| + 1
  {
    && i < |events| && events[i].Act? && events[i].act.Tick?
    && (events[i].act.wakePending || AnyDue(history[i].live, events[i].act.tick))
  }

  ghost predicate TakenAfter(events: seq<Event>, i: nat) {
    exists j: nat :: i < j < |events| && events[j] == Act(TakeWork)
  }

  /** Some tick raised the flag and nobody took it since. */
  ghost predicate Raised(history: seq<Moment>, events: seq<Event>)
    requires |history| == |events| + 1
  {
    exists i: nat :: Raises(history, events, i) && !TakenAfter(events, i)
  }

  /** The flag after any run of events that starts with it down. */
  lemma {:induction false} FlagTrace(history: seq<Moment>, events: seq<Event>, now: nat)
    requires Traced(history, events, now) && !history[0].pending
    ensures history[|events|].pending <==> Raised(history, events)
  {
    if events != [] {
      var n := |events| - 1;
      FlagTrace(history[..n + 1], events[..n], now);
      RaisedSnoc(history, events);
      assert EventOk(history[n], events[n], history[n + 1], now);
    }
  }

  lemma RaisedSnoc(history: seq<Moment>, events: seq<Event>)
    requires |history| == |events| + 1 && events != []
    ensures var n := |events| - 1;
            Raised(history, events) <==>
              Raises(history, events, n) || (events[n] != Act(TakeWork) && Raised(history[..n + 1], events[..n]))
  {
    hide AnyDue;
    var n := |events| - 1;
    forall i: nat | i < n
      ensures Raises(history, events, i) == Raises(history[..n + 1], events[..n], i)
      ensures TakenAfter(events, i) <==> events[n] == Act(TakeWork) || TakenAfter(events[..n], i)
    {
      TakenSnoc(events, i);
    }
    assert !TakenAfter(events, n);
    if Raised(history, events) {
      var i: nat :| Raises(history, events, i) && !TakenAfter(events, i);
      assert i < n ==> Raises(history[..n + 1], events[..n], i);
    }
    if Raised(history[..n + 1], events[..n]) {
      var i: nat :| Raises(history[..n + 1], events[..n], i) && !TakenAfter(events[..n], i);
      assert Raises(history, events, i);
    }
  }

  lemma TakenSnoc(events: seq<Event>, i: nat)
    requires i < |events| - 1
    ensures var n := |events| - 1; TakenAfter(events, i) <==> events[n] == Act(TakeWork) || TakenAfter(events[..n], i)
  {
    var n := |events| - 1;
    if TakenAfter(events[..n], i) {
      var j: nat :| i < j < n && events[..n][j] == Act(TakeWork);
      assert events[j] == Act(TakeWork);
    }
    if TakenAfter(events, i) && events[n] != Act(TakeWork) {
      var j: nat :| i < j < |events| && events[j] == Act(TakeWork);
      assert events[..n][j] == Act(TakeWork);
    }
  }

  function Acted(acts: seq<Act>): (r: seq<Event>)
    ensures |r| == |acts| && forall i | 0 <= i < |acts| :: r[i] == Act(acts[i])
  {
    seq(|acts|, i requires 0 <= i < |acts| => Act(acts[i]))
  }

  /** Each delivery followed by what happened during it. */
  function Woven(delivered: seq<TimerEntry>, between: seq<seq<Act>>): seq<Event>
    requires |delivered| <= |between|
  {
    if delivered == [] then [] else
      var n := |delivered| - 1;
      Woven(delivered[..n], between) + [Expired(delivered[n])] + Acted(between[n])
  }

  lemma WovenSnoc(delivered: seq<TimerEntry>, e: TimerEntry, between: seq<seq<Act>>)
    requires |delivered| < |between|
    ensures Woven(delivered + [e], between) == Woven(delivered, between) + [Expired(e)] + Acted(between[|delivered|])
  {
    assert (delivered + [e])[..|delivered|] == delivered;
  }

  lemma WovenAfter(front: seq<Event>, delivered: seq<TimerEntry>, e: TimerEntry, between: seq<seq<Act>>)
    requires |delivered| < |between|
    ensures front + Woven(delivered + [e], between) ==
              front + Woven(delivered, between) + [Expired(e)] + Acted(between[|delivered|])
  {
    WovenSnoc(delivered, e, between);
  }

  lemma TraceOne(history: seq<Moment>, events: seq<Event>, e: Event, next: Moment, now: nat)
    requires Traced(history, events, now) && EventOk(history[|events|], e, next, now)
    ensures Traced(history + [next], events + [e], now)
  {
    hide EventOk;
    forall i | 0 <= i < |events| + 1
      ensures EventOk((history + [next])[i], (events + [e])[i], (history + [next])[i + 1], now)
    {
    }
  }

  ghost predicate EarliestOf(live: map<TimerKey, TimerEntry>, deadline: nat) {
    if live == map[] then deadline == NO_DEADLINE
    else
      && (exists key :: key in live && live[key].deadline == deadline)
      && forall key | key in live :: deadline <= live[key].deadline
  }

  /**
   The word that interrupt code compares with the clock tells exactly whether a
   timer is due, except with no timer armed at the very last tick of the clock.
   */
  lemma DueWordExact(live: map<TimerKey, TimerEntry>, deadline: nat, now: nat)
    requires EarliestOf(live, deadline)
    ensures deadline <= now <==> AnyDue(live, now)
  {
    if live != map[] {
      var key :| key in live && live[key].deadline == deadline;
    }
  }
}
