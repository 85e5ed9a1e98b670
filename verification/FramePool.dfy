/**
 The refcount contract between the frame allocator and its users: what a call
 may do to the refcounts of the managed, unpinned frames.
 */
module FramePool {
  import opened Base

  type Refs = map<nat, nat>

  /** Largest refcount that can still be raised by one. */
  const MAX_RETAIN: nat := 0xFFFF_FFFD

  predicate Allocated(before: Refs, after: Refs, r: Option<nat>) {
    match r
    case None => after == before
    case Some(f) => f in before && before[f] == 0 && after == before[f := 1]
  }

  predicate Retained(before: Refs, after: Refs, f: nat, ok: bool) {
    && (ok <==> f in before && 0 < before[f] <= MAX_RETAIN)
    && after == if ok then before[f := before[f] + 1] else before
  }

  predicate Released(before: Refs, after: Refs, f: nat, ok: bool) {
    && (ok <==> f in before && 0 < before[f])
    && after == if ok then before[f := before[f] - 1] else before
  }
}
