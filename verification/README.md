# AgenticOS kernel: a verified model

This project models the parts of the AgenticOS kernel that keep the most state
and carry the strongest promises, and proves those promises for every input and
every run of the model. `dafny verify dfyconfig.toml` checks all of it.

## What is modelled

**Memory.** `MemoryMap` numbers the frames of a boot memory map; `FrameAllocator`
is the bitmap and refcount allocator. `PageTables` describes one physical memory
that holds data frames and four-level tables alike (Intel SDM Vol. 3A, section
4.5), and its invariant `Inv`: the tables below each root form a tree, every
reference the allocator counts is held by a leaf, a table or an outside holder,
and a writable leaf names a frame with refcount 1. `PageSteps`, `PageWalk`,
`SpaceView`, `PageEffects`, `PagePaths`, `CowSteps`, `RegionSteps`,
`DestroySteps`, `CloneSteps`, `ForkViews` and `PrivateFrames` show, one update at a
time, what each keeps and what programs can see of it. `MemoryMapper` and
`AddressSpace` are the mapper's methods and the fork code over in-place tables.
`SpaceOps` states each operation against the eager machine, and `SpaceRuns` puts
them together: `Execute` runs any sequence of operations and is proved equal, for what
programs can see, to a machine whose fork copies every page at once, and it refuses
an operation which that machine allows only when a frame or a reference could not
be had.
`FramePool` is the contract on refcounts that the allocator meets and the mapper
assumes.

**Scheduling.** `SchedulerSpec` gives each scheduler method as a function on the
scheduler's state; `Scheduler` is the object whose methods are proved to compute
those functions. `SchedulerSafety` proves the invariant, `SchedulerRuns` lifts it
to every interleaving of CPU steps and proves the wake-up property,
`SchedulerContexts` says which contexts a CPU can be handed, `SchedulerWaiting`
proves bounded waiting, `SchedulerDeadlines` what becomes of latency contracts, and
`SchedulerEffects` what each transition does field by field and that yielded and
preempted threads come back.
`IoMailbox` is the wake mailbox between interrupt handlers and the scheduler, one
word access at a time; `MailboxWakes` says which completions wake their thread and
`MailboxCapacity` when the mailbox can run full. `TimerIndex` and `TimerQueue` are
the deadline heap with its tombstoned hash index, and the service that drains it
among ticks and other CPUs' timer calls.

**Small protocols.** `ArcWeak`, `InputQueue` and `TraceRing` are state machines
over single atomic accesses; `TraceExport` is the exporter among the others' steps.

**Codecs.** `Crc`, `Capsule`, `CapsuleLayout` and `CapsuleCodec` are the crash
capsule, where its fields lie, its writer and its decoder; `Calendar` is the date conversion; `Pty` the line
discipline.

## Conventions and assumptions

- A method that runs under a lock in the kernel is one step of the model. Atomics
  are sequentially consistent: weaker memory orderings are not modelled.
- Interrupts, clocks and memory contents from outside are parameters. The
  allocation-failure hook of the allocator is kept (`failAfter`), so every
  allocation point can fail.
- Integers are unbounded in Dafny. Where the code wraps, saturates or checks for
  overflow the model says so (`% U64_END`, `SaturatingAdd`, `ValidateUserRange`).
- A bitmap word is the set of its one bits. A page is the sequence of its four
  table indices. A frame is its physical start address.
- Pids and completion tokens posted to the wake mailbox are not zero; zero marks
  an empty slot in the code.
- The counts of `ArcWeak` stay below the limit at which `clone` panics, and the
  recorder's sequence numbers below 2^62, where its commit word would wrap.
- Writers of one trace slot do not overlap in time.
- Before a scheduler step its caller guarantees what `SchedulerRuns.Enabled`
  states: a CPU that picks runs nothing, an entity that is preempted, or whose
  save begins, is the caller's own, one that is yielded or forced onto a CPU is
  current on no other, spawned pids are new, the idle process is never made ready,
  and at most 256 entities are registered.
- Where code and comments differ the model follows the code. A comment in
  `clone_for_child` calls the parent's tables read-only; the code marks the
  parent's writable leaves copy-on-write (`ShareLeaf`). A comment on
  `take_pending_eof` promises one end of file per character typed; the code has a
  single flag (`EofOncePerMark` says when the promise holds).

## Model

| member | source | states |
|---|---|---|
| MemoryMap.UsableBoundsExact | src/mm/frame_allocator.rs:399-406 | the bounds cover exactly the aligned frames that lie wholly inside a usable region, frame zero excluded |
| MemoryMap.CompactFrameIndex | src/mm/frame_allocator.rs:416-428 | the scan returns the frame's number, or none for an address no usable extent covers |
| MemoryMap.CompactIndexFrame | src/mm/frame_allocator.rs:430-444 | the scan returns the frame with a number, or none past the last |
| MemoryMap.AddressRoundTrip | src/mm/frame_allocator.rs:416-444 | a numbered address is the frame of its number |
| MemoryMap.OrdinalRoundTrip | src/mm/frame_allocator.rs:416-444 | on a disjoint map every number below the total names a frame with that number |
| MemoryMap.NumberingBijectiveIffDisjoint | src/mm/frame_allocator.rs:416-444 | index and address maps are inverse if and only if the extents are disjoint |
| FrameLedger.CountersConserve | src/mm/frame_allocator.rs:202-205 | total usable is pinned plus allocated plus free, and shared frames are among the allocated |
| FrameLedger.CountersMean | src/mm/frame_allocator.rs:202-205 | the counters are the numbers of frames with refcount zero, the pinned mark, a live count, and a live count above one |
| FrameLedger.LedgerUpdate | src/mm/frame_allocator.rs:221-311 | one refcount change carried out in bitmap, counters and refcounts keeps all of them in agreement |
| FrameAllocation.FrameAllocator.constructor | src/mm/frame_allocator.rs:165-178 | a new allocator is consistent and every frame of the map is free |
| MemoryMap.FindMetadataExtent | src/mm/frame_allocator.rs:446-452 | the scan finds the start of the first extent with room for the metadata |
| MemoryMap.FirstFit | src/mm/frame_allocator.rs:446-452 | that start is the start of the first extent with room, and none is reported exactly if no extent has room |
| FrameAllocation.InitFrameAllocator | src/mm/frame_allocator.rs:106-200 | refused exactly if no frame is usable or no extent has room for the metadata; otherwise exactly the metadata frames are pinned and every other usable frame is free |
| FrameAllocation.FrameAllocator.Refcount | src/mm/frame_allocator.rs:211-215 | the count of a managed, unpinned frame, else none |
| FrameAllocation.FrameAllocator.RetainFrame | src/mm/frame_allocator.rs:221-245 | succeeds exactly for counts between one and the limit and raises that count only; each error has its exact cause |
| FrameAllocation.FrameAllocator.ReleaseFrame | src/mm/frame_allocator.rs:251-280 | succeeds exactly for live frames, lowers that count only, and frees the frame at zero in bitmap and counters |
| FrameAllocation.FrameAllocator.PinFrame | src/mm/frame_allocator.rs:282-302 | a free frame leaves the refcounted ones for good; a live one is refused |
| FrameAllocation.FrameAllocator.InjectedFailure | src/mm/frame_allocator.rs:67-85 | fails exactly when the hook has counted down to zero |
| FrameAllocation.FrameAllocator.FindFree | src/mm/frame_allocator.rs:339-353 | the wrapping scan finds a free frame, and none only if every frame is in use, despite the hint and a ragged last word |
| FrameAllocation.FrameAllocator.AllocateFrame | src/mm/frame_allocator.rs:331-373 | succeeds if and only if no failure is injected and some frame is free, and hands out a free, unpinned frame with count one |
| FrameAllocation.FreeFrames | src/mm/frame_allocator.rs:336-338 | the free counter is positive exactly when some managed frame is free |
| UserRange.ValidateUserRange | src/mm/paging.rs:1288-1316 | accepts a range if and only if it is nonempty, aligned, within bounds and no page of it lies in a reserved root slot |
| UserRange.UserAddresses | src/mm/paging.rs:1288-1316 | the user pages are the lower half of the 48-bit space without the kernel's three root slots |
| UserRange.NoReservedSlot | src/mm/paging.rs:1310-1314 | the scan accepts exactly the root slots that hold no reserved one |
| UserRange.IndicesInverse | src/mm/paging.rs:1318-1326 | the four indices of a page-aligned user address determine it |
| UserRange.PagesDistinct | src/mm/paging.rs:1318-1326 | distinct pages of a range have distinct indices |
| PageSteps.MapLeafInv | src/mm/paging.rs:526-577 | installing a held frame in an unused slot keeps the whole invariant |
| PageSteps.UnmapLeafInv | src/mm/paging.rs:588-640 | clearing a leaf keeps it, the reference passing to an outside holder |
| PageSteps.SetLeafFlagsInv | src/mm/paging.rs:441-462 | new flags keep it when writable ones are set on an unshared frame only |
| PageSteps.RetainInv | src/userland/address_space.rs:342-352 | one more reference keeps it once the leaf is read-only |
| PageSteps.ReleaseInv | src/mm/paging.rs:579-585 | dropping an outside reference keeps it |
| PageSteps.LinkInv | src/mm/paging.rs:1096-1104 | a fresh zeroed frame linked under an unused slot keeps it |
| PageSteps.DetachInv | src/mm/paging.rs:762-764 | clearing the slot that names a table keeps it, the table floating free |
| PageSteps.DiscardInv | src/mm/paging.rs:772-801 | an emptied table that no slot names can be given up |
| PageSteps.AddRootInv | src/userland/address_space.rs:44-69 | a new root with the kernel's slots keeps it |
| PageWalk.SlotUnique | src/mm/paging.rs:407-427 | distinct pages, or equal pages of distinct spaces, never share a leaf slot |
| PageWalk.LeafSlotReached | src/mm/paging.rs:407-427 | every leaf slot is the slot of a page of some space |
| PageEffects.StoreStep | src/mm/paging.rs:464-511 | a store through a writable leaf changes one page of one space and nothing else |
| PageEffects.LinkStep | src/mm/paging.rs:1096-1104 | creating an empty table changes no translation and nothing programs see |
| PageEffects.PruneStep | src/mm/paging.rs:730-745 | giving up an empty table changes no translation and nothing programs see |
| PagePaths.PrunePathOk | src/mm/paging.rs:713-746 | pruning a path keeps the invariant and both views and leaves no table empty |
| PagePaths.GrowUndoable | src/mm/paging.rs:713-746 | a walk that has created tables is undone exactly by pruning the path, but for the contents of free frames |
| PagePaths.UnmapUndoesMap | src/mm/paging.rs:588-640 | unmapping a page just mapped restores the state before its frame was held |
| PagePaths.RestoredViews | src/mm/paging.rs:643-711 | a restored state has every leaf map and every visible byte of the original |
| PagePaths.UnmappedOk | src/mm/paging.rs:588-640 | unmapping clears one page in both views and leaves no empty table |
| PagePaths.MovedOk | src/mm/paging.rs:643-711 | carrying a leaf over moves one page in both views |
| CowSteps.UpgradeOk | src/mm/paging.rs:473-476 | making the only leaf of a frame writable in place is invisible to programs |
| CowSteps.CowCopyOk | src/mm/paging.rs:477-510 | the copy path is invisible to programs and leaves the page writable on a private frame |
| RegionSteps.UnwindOneMore | src/mm/paging.rs:1041-1134 | after any number of mapped pages, unmapping them last to first restores the start |
| RegionSteps.FailedPage | src/mm/paging.rs:1118-1130 | releasing the frame and pruning leaves nothing of a failed page |
| RegionSteps.ZeroPagesAt | src/mm/paging.rs:1041-1134 | the region's pages show zeroes, every other page of the space what it showed |
| MemoryMapping.MemoryMapper.constructor | src/mm/paging.rs:253-271 | at boot there is no user table, the invariant holds and every counted reference is the kernel's |
| MemoryMapping.MemoryMapper.AllocateFrame | src/mm/paging.rs:347-359 | any free frame may be handed out; none exactly on injected failure or exhaustion |
| MemoryMapping.MemoryMapper.ReleaseFrame | src/mm/paging.rs:361-364 | succeeds exactly for a counted frame and lowers its count; the accounts stay right if and only if it failed or the reference was held outside the tables |
| MemoryMapping.MemoryMapper.RetainLeafFrame | src/mm/paging.rs:370-374 | succeeds exactly for live counts below the limit |
| MemoryMapping.MemoryMapper.LeafSlotPtr | src/mm/paging.rs:407-427 | the three-step walk finds the slot of the page's leaf, or none if a table is missing |
| MemoryMapping.MemoryMapper.LeafInfo | src/mm/paging.rs:429-439 | the page's present leaf, or none |
| MemoryMapping.MemoryMapper.PruneEmptyPath | src/mm/paging.rs:713-746 | gives up the path's empty tables bottom-up, as deep as the path goes |
| MemoryMapping.MemoryMapper.MapTo | src/mm/paging.rs:545-576 | maps a held frame, creating tables; fails as already mapped exactly when the page is; a failure can be pruned away |
| MemoryMapping.MemoryMapper.MapPrivateFrameInto | src/mm/paging.rs:526-577 | sets the one page in both views and leaves every other private frame alone; fails exactly for a mapped page or for want of a table frame, restores everything and leaves the frame with the caller |
| MemoryMapping.MemoryMapper.MapUserRegionInto | src/mm/paging.rs:1041-1134 | maps zeroed pages, each leaf present, for user mode, writable exactly for ReadWrite and executable exactly for ReadExecute; fails only for a bad range, a mapped page or want of frames, and then restores refcounts, tables and every space |
| MemoryMapping.MemoryMapper.UnmapPageFrom | src/mm/paging.rs:588-640 | clears exactly the one page, releases its frame, keeps no empty table; an unmapped page is an error without effect |
| MemoryMapping.MemoryMapper.MoveUserPage | src/mm/paging.rs:643-711 | moves one page, a hole stays a hole, an occupied target is refused, and want of frames, the only other failure, restores everything |
| MemoryMapping.MemoryMapper.ResolveCow | src/mm/paging.rs:464-511 | upgrades if and only if the refcount is one, else copies; of the flags only writable and the mark change; no byte any program reads changes; out of frames changes nothing |
| MemoryMapping.MemoryMapper.UserWrite | src/mm/paging.rs:464-511 | a store changes one byte of one page of one space, through the fault path where needed; a writable page is refused only for want of a frame |
| MemoryMapping.MemoryMapper.AllocatePrivateZeroedFrame | src/mm/paging.rs:516-524 | a zeroed frame held by the caller, invisible to every space |
| MemoryMapping.MemoryMapper.ReleasePrivateFrame | src/mm/paging.rs:579-585 | gives the frame back and touches nothing else |
| MemoryMapping.MemoryMapper.DestroyUserTable | src/mm/paging.rs:772-801 | exactly the tables below the table are given up, and only their frames are touched |
| MemoryMapping.MemoryMapper.DestroyUserAddressSpace | src/mm/paging.rs:749-770 | the space is gone and every other keeps its leaf map and its bytes |
| DestroySteps.DestroyedViews | src/mm/paging.rs:749-801 | removing a tree of tables removes one space from both views |
| PrivateFrames.DestroyedKeeps | src/mm/paging.rs:749-801 | taking apart a space touches no byte and no count of a frame that only a page-in holds |
| PrivateFrames.UnmappedKeeps | src/mm/paging.rs:588-640 | nor does unmapping a page with its prune |
| PrivateFrames.QuietKeeps | src/mm/paging.rs:526-577 | nor does a mapping walk |
| CloneSteps.ShareInv | src/userland/address_space.rs:342-356 | marking, retaining and sharing a leaf keeps the invariant |
| CloneSteps.CloneShare | src/userland/address_space.rs:327-370 | one more leaf is shared by parent and child, all other leaves as before |
| CloneSteps.CloneReturn | src/userland/address_space.rs:257-325 | a finished lower level makes all pages below its slot shared |
| CloneSteps.CloneReturnFailed | src/userland/address_space.rs:257-325 | an abandoned level leaves only copy-on-write marks on the parent |
| ForkViews.ForkedViews | src/userland/address_space.rs:177-236 | after a fork every space shows what an eager copy would |
| ForkViews.AbandonedOk | src/userland/address_space.rs:231-236 | after a dropped half-built child, refcounts and tables are those of before |
| AddressSpaces.BuildRoot | src/userland/address_space.rs:62-68 | the new root has the kernel's slots and no user entry |
| AddressSpaces.NewAddressSpace | src/userland/address_space.rs:40-85 | adds an empty space and changes no other, or fails without effect |
| AddressSpaces.ShareLeaf | src/userland/address_space.rs:342-356 | both leaves keep frame, present, user, huge and no-execute, are not writable, and are marked exactly if the old one was writable or marked; fails exactly at the refcount limit without effect |
| AddressSpaces.ClonePt | src/userland/address_space.rs:327-370 | every page of a leaf table is shared, or the call gives up leaving only marks |
| AddressSpaces.CloneTable | src/userland/address_space.rs:257-325 | every page below a table is shared, or the call gives up leaving only marks |
| AddressSpaces.CloneForChild | src/userland/address_space.rs:177-236 | fork shows programs an eager copy and gives parent and child the same leaves, each the old one with nothing but write access traded for the mark; it fails only for want of a frame or at the refcount limit, and then restores refcounts and tables and at most marks the parent's leaves |
| AddressSpaces.DropChild | src/userland/address_space.rs:372-397 | dropping a half-built child restores refcounts, tables and every space |
| SpaceOps.StepFork | src/userland/address_space.rs:177-236 | one fork is the eager machine's, refused only without a parent or for want of memory |
| SpaceOps.StepInstall | src/userland/usercopy.rs:254-261 | mapping a private frame shows its bytes in one page and ends the hold; refused only for a bad argument, a mapped page or want of a table frame |
| SpaceOps.StepHold | src/userland/usercopy.rs:116-121 | a page-in gets a zeroed frame nobody else has |
| SpaceOps.StepFill | src/userland/usercopy.rs:139-205 | filling a private frame changes that frame alone |
| SpaceOps.StepDiscard | src/userland/usercopy.rs:308-310 | a discarded private frame is given back |
| SpaceRuns.Execute | src/userland/address_space.rs:177-236 | every run of fork, write, map, unmap, move, drop and page-in steps shows programs what the eager machine would, with all accounting kept; nothing forbidden succeeds, and operations wrongly refused are no more than the shortages met |
| SpaceRuns.Lifetime | src/mm/paging.rs:516-801 | the same from boot; with every space dropped and every private frame given back all refcounts are those of boot |
| SpaceRuns.Isolation | src/userland/address_space.rs:327-370 | over whole runs, nothing done to other spaces, and no fork of it, changes a byte a space reads |
| SpaceRuns.PrivateIsolation | src/userland/usercopy.rs:110-310 | over whole runs, a private frame keeps its bytes until it is filled, mapped or discarded by name |
| SpaceRuns.AllDropped | src/mm/paging.rs:749-801 | with every space dropped all refcounts are back where they began |
| SpaceRuns.NoIdleTable | src/mm/paging.rs:713-746 | between calls every table below a root is on the way to a mapped page |
| SpaceRuns.PruneExact | src/mm/paging.rs:713-746 | pruning gives up exactly the tables that no mapped page goes through |
| SpaceRuns.LeafSlotsArePages | src/mm/paging.rs:516-801 | every leaf that a refcount counts is a mapped page of exactly one space |
| SpaceRuns.PagesAreLeafSlots | src/mm/paging.rs:516-801 | and every mapped page is one of the leaves counted |
| SpaceRuns.WritableIsUnshared | src/userland/address_space.rs:342-352 | a frame behind a writable leaf has refcount one and is behind no other page |
| SpaceRuns.RightsAreShown | src/mm/paging.rs:111-118 | what programs are shown is what the processor allows: a right that every entry on the walk gives, a store to a marked leaf faulting into a copy |
| SpaceRuns.KernelSlotsFixed | src/mm/paging.rs:29-31 | reserved and upper-half root slots are the kernel's in every space |
| SchedulerSpec.PickIs | src/process/scheduler.rs:478-500 | the pick is the earliest overdue eligible entry, queue order on ties, else the first eligible, else none |
| SchedulerSpec.PickBeatsOverdue | src/process/scheduler.rs:478-500 | an entry that may run here and whose ceiling has come is never passed over for one with a later ceiling |
| SchedulerSpec.PickIsFair | src/process/scheduler.rs:478-500 | while no ceiling has come, an entry that may run here is never passed over for one behind it |
| SchedulerSafety.EnqueueFits | src/process/run_queue.rs:26-35 | with at most 256 entities the queue always has room |
| SchedulerSafety.MadeReadyInv | src/process/scheduler.rs:283-354 | making ready keeps the scheduler invariant |
| SchedulerSafety.BlockedInv | src/process/scheduler.rs:356-373 | blocking keeps it |
| SchedulerSafety.PublishedInv | src/process/scheduler.rs:424-447 | publishing a context keeps it |
| SchedulerSafety.ScheduledInv | src/process/scheduler.rs:502-538 | dispatching keeps it |
| SchedulerSafety.PreemptedInv | src/process/scheduler.rs:542-596 | preemption keeps it, whether another entity runs or the interrupted one carries on |
| SchedulerSafety.ForcedInv | src/process/scheduler.rs:648-684 | forcing a user entity onto a CPU keeps it |
| SchedulerSafety.YieldedInv | src/process/scheduler.rs:686-702 | yielding an entity keeps it |
| SchedulerSafety.CurrentYieldedInv | src/process/scheduler.rs:930-950 | yielding the current thread keeps it |
| SchedulerSafety.TerminatedInv | src/process/scheduler.rs:862-888 | terminating keeps it, at once or by request |
| SchedulerRuns.StepInv | src/process/scheduler.rs:205-950 | every enabled step keeps the invariant |
| SchedulerRuns.Safety | src/process/scheduler.rs:283-596 | in every run no entity is current on two CPUs, current means running, and the queue is exactly the ready entities whose context is saved, each once |
| SchedulerRuns.DispatchIsSaved | src/process/scheduler.rs:205-950 | whatever the step, a CPU is handed an entity that was ready with its context published, or the one `set_running` names |
| SchedulerContexts.FlagIsHistory | src/process/scheduler.rs:415-447 | over any run the flag says exactly whether a save has begun and not been ended by a publication or a yield |
| SchedulerContexts.UnsavedOnlyIfForced | src/process/scheduler.rs:648-684 | after any run a context whose save is owed is handed over if and only if `set_running` names a registered, unpublished entity |
| SchedulerContexts.NotBeforeSaved | src/process/scheduler.rs:415-621 | once an entity has left its CPU unsaved, no CPU has it until its save is published, unless it is yielded or forced by name, or unregistered |
| SchedulerContexts.ForcedUnsaved | src/process/scheduler.rs:648-684 | a run in which `set_running` hands over a context still being saved |
| SchedulerContexts.YieldedUnsaved | src/process/scheduler.rs:686-702 | a run in which a yield stands in for the publication |
| SchedulerRuns.BlockParks | src/process/scheduler.rs:744-764 | blocking parks the thread neither woken nor saved, off the queue |
| SchedulerRuns.WakeOnce | src/process/scheduler.rs:283-447 | along any run a parked thread is queued exactly when both its wake and the end of its save have happened, in either order |
| SchedulerRuns.DispatchedAfterBoth | src/process/scheduler.rs:283-447 | in any run that dispatches a parked thread, the first dispatch comes after both its wake and the end of its save |
| SchedulerEffects.YieldParks | src/process/scheduler.rs:930-950 | a thread that yields is off every CPU, ready and unqueued, its save under way, nothing else touched |
| SchedulerEffects.YieldComesBack | src/process/scheduler.rs:424-447 | along any run a yielded thread is in the queue exactly once its save has been published |
| SchedulerEffects.PreemptFacts | src/process/scheduler.rs:542-596 | a preempted entity runs on, or is ready, unqueued and off every CPU with its save under way; its tick is counted and its ceiling dropped |
| SchedulerEffects.PreemptParks | src/process/scheduler.rs:542-596 | a preempted thread runs on, or waits only for the end of its save |
| SchedulerEffects.PreemptedComesBack | src/process/scheduler.rs:424-447 | along any run a thread preempted for another is in the queue exactly once its save has been published |
| SchedulerEffects.ReadyFacts | src/process/scheduler.rs:283-354 | field by field: state, ceiling, contract and process of an entity made ready, queued last exactly if published, all else alone |
| SchedulerEffects.BlockFacts | src/process/scheduler.rs:356-373 | field by field: blocked, without ceiling, on no CPU and not queued, all else alone |
| SchedulerEffects.GoneFacts | src/process/scheduler.rs:375-391 | the entity is in no table, queue or CPU slot, all else alone |
| SchedulerEffects.PublishFacts | src/process/scheduler.rs:424-447 | only the mark changes, and the entity is queued exactly if ready |
| SchedulerEffects.DispatchFacts | src/process/scheduler.rs:502-538 | field by field: running, without ceiling or contract, off the queue, in the slot of its CPU alone |
| SchedulerEffects.PopFacts | src/process/scheduler.rs:598-621 | field by field: a user process, running, without ceiling, off the queue, in the slot of its CPU alone |
| SchedulerEffects.ClearFacts | src/process/scheduler.rs:632-646 | the slot is empty and the entity blocked, all else alone |
| SchedulerEffects.ParkFacts | src/process/scheduler.rs:744-764 | field by field: thread and process blocked for the reason, no ceiling, save under way, slot empty, all else alone |
| SchedulerEffects.SaveFacts | src/process/scheduler.rs:415-422 | only the mark changes |
| SchedulerEffects.ForceFacts | src/process/scheduler.rs:648-684 | field by field: running without ceiling, off the queue, in the slot; the one displaced is blocked; all else alone |
| SchedulerEffects.YieldFacts | src/process/scheduler.rs:686-702 | field by field: ready, published, without ceiling, queued, on no CPU |
| SchedulerEffects.WakeFacts | src/process/scheduler.rs:792-809 | process and entity are ready, the reason gone, the ceiling set, and the thread queued exactly if published |
| SchedulerEffects.TerminateFacts | src/process/scheduler.rs:862-888 | a running thread is only asked to terminate; any other is gone with its process |
| SchedulerEffects.ExitFacts | src/process/scheduler.rs:837-860 | the current thread is gone with its process and its slot empty, all else alone |
| SchedulerEffects.SpawnFacts | src/process/scheduler.rs:205-229 | the new thread is ready, published and last in the queue, all else alone |
| SchedulerEffects.RegisterFacts | src/process/scheduler.rs:272-281 | a new user entity is blocked and published, a known one as it was, all else alone |
| SchedulerEffects.BindFacts | src/process/scheduler.rs:397-407 | the affinity is the one given, all else alone |
| SchedulerEffects.AffinityIsLast | src/process/scheduler.rs:397-407 | over every run, an entity's affinity is the one it was last given |
| SchedulerEffects.DispatchIsAllowed | src/process/scheduler.rs:472-476 | whatever the step, a CPU is handed an entity whose affinity allows it, or the one `set_running` names |
| SchedulerEffects.BindingKept | src/process/scheduler.rs:472-621 | over every run, a CPU that picks an entity is one that its last binding allows |
| SchedulerEffects.RequestStands | src/process/scheduler.rs:862-898 | over every run that a thread survives, it is asked to terminate exactly if some step asked it |
| SchedulerWaiting.NeverOvertaken | src/process/scheduler.rs:472-538 | with affinities fixed, the number of eligible entries before a queued one never grows |
| SchedulerWaiting.BoundedWaiting | src/process/scheduler.rs:472-538 | while an entity with k eligible entries before it waits and no overdue contract decides, at most k dispatches happen on its CPU |
| SchedulerWaiting.DispatchedWithin | src/process/scheduler.rs:472-621 | with more than k dispatches on its CPU it has left the queue, and runs there if a dispatch on that CPU took it |
| SchedulerWaiting.PopPassesThreads | src/process/scheduler.rs:598-621 | a pick among user processes never takes a kernel thread, whatever its place |
| SchedulerWaiting.HeadIsDispatched | src/process/scheduler.rs:472-621 | with none before it, the next pick takes it, be it by `schedule_entity`, `preempt_and_pick` or, for a user process, `pop_next_user` |
| SchedulerDeadlines.EarliestPromiseHolds | src/process/scheduler.rs:283-354 | over any run in which an entity waits and is not yielded again, its dispatch ceiling is the earliest of all it was promised |
| SchedulerDeadlines.YieldForgets | src/process/scheduler.rs:686-702 | yielding an entity that is already queued drops its ceiling and keeps its place |
| SchedulerDeadlines.MissesCounted | src/process/scheduler.rs:502-596 | over any run the miss counter grows by the number of dispatches after the ceiling, up to its limit |
| RunQueues.RunQueue.Enqueue | src/process/run_queue.rs:26-35 | appends once, refuses a duplicate silently, fails exactly when full |
| RunQueues.RunQueue.Remove | src/process/run_queue.rs:37-43 | drops the entity and keeps the order of the rest |
| RunQueues.RunQueue.RemoveAt | src/process/run_queue.rs:45-47 | takes the entry at an index, or nothing past the end |
| Scheduling.Scheduler.constructor | src/process/scheduler.rs:169-196 | only the idle process exists, invariant met |
| Scheduling.Scheduler.RegisterUser | src/process/scheduler.rs:272-281 | a user entity is known, blocked and saved, if it was not before |
| Scheduling.Scheduler.MakeReady | src/process/scheduler.rs:283-354 | never fails for a registered entity; one that runs nowhere is ready and queued exactly if published, its ceiling and its time set |
| Scheduling.Scheduler.BlockEntity | src/process/scheduler.rs:356-373 | blocked, without ceiling, on no CPU and not queued, invariant kept |
| Scheduling.Scheduler.UnregisterUser | src/process/scheduler.rs:375-391 | the entity is gone from queue, CPUs and table, invariant kept |
| Scheduling.Scheduler.SetCpuAffinity | src/process/scheduler.rs:397-407 | records the affinity and touches no other entity, or fails exactly for an offline CPU or an unknown entity |
| Scheduling.Scheduler.MarkContextSaving | src/process/scheduler.rs:415-422 | the entity is not dispatchable until published, all others as before; the invariant is kept if and only if it is not queued |
| Scheduling.Scheduler.PublishContext | src/process/scheduler.rs:424-447 | published, and queued exactly if ready, invariant kept, enqueue never failing |
| Scheduling.Scheduler.PickReadyIndex | src/process/scheduler.rs:478-500 | the scan returns the earliest overdue eligible entry, else the first eligible |
| Scheduling.Scheduler.ScheduleEntity | src/process/scheduler.rs:502-538 | dispatches the pick, which was ready with its context saved, and is now running, unqueued, without ceiling or contract |
| Scheduling.Scheduler.PreemptAndPick | src/process/scheduler.rs:542-596 | the CPU always has something to run, and if it is another entity, that one was ready and saved, and the interrupted one waits only for the end of its save |
| Scheduling.Scheduler.PopNextUser | src/process/scheduler.rs:598-621 | dispatches the first eligible user process, which was ready and saved, and none exactly if none is eligible |
| Scheduling.Scheduler.ClearCurrentUser | src/process/scheduler.rs:632-646 | empties the slot and blocks the process, or does nothing if the CPU runs another |
| Scheduling.Scheduler.SetRunning | src/process/scheduler.rs:648-684 | the CPU has the entity, no other CPU changes, the one it had is blocked, and the context is saved exactly if the entity was new or published |
| Scheduling.Scheduler.YieldEntity | src/process/scheduler.rs:686-702 | ready, published, queued, on no CPU, invariant kept, enqueue never failing |
| Scheduling.Scheduler.YieldCurrent | src/process/scheduler.rs:930-950 | the thread is off its CPU, ready, unqueued, and waits only for the end of its save |
| Scheduling.Scheduler.BlockCurrent | src/process/scheduler.rs:744-764 | parks the current thread until woken and saved |
| Scheduling.Scheduler.WakeWithContract | src/process/scheduler.rs:792-809 | a blocked thread is ready and queued exactly if published; no other changes |
| Scheduling.Scheduler.WakeBlockIo | src/process/scheduler.rs:773-790 | accepts a completion unless its thread has yet to block, and wakes exactly the thread that awaits it |
| Scheduling.Scheduler.Terminate | src/process/scheduler.rs:862-888 | removes a thread that runs nowhere, or leaves the request with the one that runs |
| Scheduling.Scheduler.TerminateCurrent | src/process/scheduler.rs:837-860 | the current thread is gone with its process and its slot empty |
| Scheduling.Scheduler.Spawn | src/process/scheduler.rs:205-229 | a new ready thread is last in the queue |
| IoMailbox.MailStepInv | src/process/mod.rs:70-111 | every word access of producers and drainer keeps each slot's two words of one record |
| IoMailbox.EmptyMailboxInv | src/process/mod.rs:70-111 | the empty mailbox meets the invariant |
| IoMailbox.NeverMixed | src/process/mod.rs:90-111 | an accepted pair is both words of one posted completion, taken for the first time |
| IoMailbox.StaysUntilAccepted | src/process/mod.rs:70-111 | over any run a posted completion stays until the scheduler accepts it |
| IoMailbox.DrainedOnce | src/process/mod.rs:90-111 | no completion is consumed twice |
| MailboxWakes.EarlyIsKept | src/process/scheduler.rs:773-790 | an offered completion is left in its slot if and only if its thread is registered and not blocked on block I/O |
| MailboxWakes.TakenRouses | src/process/scheduler.rs:773-790 | a completion that is taken wakes nobody if and only if its thread is gone or awaits another token |
| MailboxWakes.TakenOnlyWhenAwaited | src/process/mod.rs:90-111 | while a thread is registered and waits for no other token, its completion is taken only by a step that finds it waiting and rouses it |
| MailboxWakes.EarlyStillWakes | src/process/mod.rs:70-111 | over any run from the posting in which the thread is registered and waits for no other token, once it has blocked and a full pass has ended, its wait has been answered |
| MailboxWakes.WrongTokenLost | src/process/scheduler.rs:773-790 | with two tokens outstanding a completion posted early is taken while its thread awaits the other, and wakes nobody |
| MailboxWakes.ThreadRuns | src/process/scheduler.rs:205-538 | a run to a state from which that happens |
| IoMailbox.PassRouses | src/process/mod.rs:90-111 | a pass that starts with a thread awaiting a posted completion rouses it, whatever producers do meanwhile |
| MailboxCapacity.NoneLostWithRoom | src/process/mod.rs:70-88 | over every interleaving, no producer finds the mailbox full while at most 64 completions are under way at once |
| MailboxCapacity.ClaimThins | src/process/mod.rs:72-76 | the reason: a producer passes a slot only by leaving its holder behind, so at most 64 - i completions have come to slot i |
| MailboxCapacity.FullLoses | src/process/mod.rs:72-88 | with all slots held, a further completion is lost |
| MailboxCapacity.LostExactly | src/process/mod.rs:70-88 | over every interleaving, a completion is lost exactly when each slot was held at the moment its producer tried it |
| TimerIndex.LookupSlot | src/process/timer.rs:112-125 | the probe finds the key's slot, or shows that no slot holds it |
| TimerIndex.InsertionSlot | src/process/timer.rs:127-144 | an open slot that no empty slot precedes on the probe sequence, none only if all are occupied |
| TimerIndex.SlotOpen | src/process/timer.rs:213-230 | with at most 512 timers a slot is always open |
| TimerIndex.SwapIndex | src/process/timer.rs:165-171 | exchanging two heap entries and their recorded positions keeps the index exact |
| TimerIndex.PopIndex | src/process/timer.rs:244-257 | a tombstone keeps every probe chain |
| TimerHeap.SiftUpStep | src/process/timer.rs:173-182 | one upward exchange moves the only disorder up |
| TimerHeap.SiftDownStep | src/process/timer.rs:184-203 | one downward exchange with the lesser child moves the only disorder down |
| TimerHeap.RootIsLeast | src/process/timer.rs:267-279 | nothing in an ordered heap is before its root |
| TimerQueues.TimerQueue.HeapIndex | src/process/timer.rs:146-152 | the recorded position of a key is its heap position, none exactly for a key without a timer |
| TimerQueues.TimerQueue.SwapHeap | src/process/timer.rs:165-171 | exchanges two entries, index and map kept |
| TimerQueues.TimerQueue.SiftUp | src/process/timer.rs:173-182 | from disorder only above a position to an ordered heap of the same timers |
| TimerQueues.TimerQueue.SiftDown | src/process/timer.rs:184-203 | from disorder only below a position to an ordered heap of the same timers |
| TimerQueues.TimerQueue.Repair | src/process/timer.rs:205-211 | from one misplaced entry to an ordered heap of the same timers |
| TimerQueues.TimerQueue.Arm | src/process/timer.rs:213-242 | inserts or replaces the key's timer in the map; refused exactly for a new key with 512 live |
| TimerQueues.TimerQueue.RemoveAt | src/process/timer.rs:244-257 | removes that entry from the map, heap and index exact again |
| TimerQueues.TimerQueue.Cancel | src/process/timer.rs:259-265 | removes the key's timer if it has one |
| TimerQueues.TimerQueue.PopDue | src/process/timer.rs:267-272 | takes the map's least timer by deadline, then sequence number, if due, and nothing exactly when none is due; a re-armed key keeps its number, and until the 64-bit counter wraps the least timer is the only least one |
| TimerQueues.TimerQueue.Earliest | src/process/timer.rs:274-279 | the least deadline of the map, or the sentinel |
| TimerQueues.TimerService.Arm | src/process/timer.rs:344-349 | arms in the map and keeps the published deadline exact |
| TimerQueues.TimerService.Cancel | src/process/timer.rs:351-356 | cancels in the map and keeps the published deadline exact |
| TimerQueues.TimerService.OnTick | src/process/timer.rs:372-380 | raises the flag exactly when a timer is due or a readiness wake is pending |
| TimerQueues.TimerService.ProcessDue | src/process/timer.rs:398-419 | whatever is armed, cancelled, popped, ticked or taken around the deliveries, each one is the earliest then armed and due; at most 32, none left due at the last pop if fewer; the flag ends up exactly if a timer is due or a tick raised it and nobody took it since |
| TimerQueues.FlagTrace | src/process/timer.rs:372-419 | over any run of arms, cancels, pops, ticks and takes that starts with the flag down, it is up exactly if some tick raised it and nobody took it since |
| TimerQueues.DueWordExact | src/process/timer.rs:372-374 | the published word tells whether a timer is due, except when none is armed at the last tick |
| ArcWeak.StepInv | src/lib/arc.rs:123-310 | every atomic step keeps the counts equal to the handles they stand for |
| ArcWeak.LifeCycle | src/lib/arc.rs:184-205 | in every run the value is dropped at most once and only without strong handles, the memory freed at most once and only after that with no handle left |
| ArcWeak.NoUseAfterFree | src/lib/arc.rs:160-310 | no step touches freed memory |
| ArcWeak.NoLateUpgrade | src/lib/arc.rs:221-250 | once the strong count is zero no upgrade ever succeeds |
| ArcWeak.UpgradeAlone | src/lib/arc.rs:221-250 | an upgrade that nobody interrupts gets a handle exactly if the value is owned |
| ArcWeak.UpgradeEnds | src/lib/arc.rs:221-250 | in any run an upgrade ends with a handle if the value is owned at its last look, else with none |
| ArcWeak.AllReleased | src/lib/arc.rs:184-310 | with every handle gone and every drop finished, value and memory have been released |
| InputQueue.StepInv | src/input/queue.rs:81-139 | every load and store keeps the ring's invariant |
| InputQueue.Refines | src/input/queue.rs:81-139 | in every run the popped events are a prefix of the accepted ones, at most 255 wait, and the counter counts the rejected pushes |
| InputQueue.StepRefines | src/input/queue.rs:81-139 | each step appends to the queue, takes its oldest event, or leaves it |
| InputQueue.NeverOverlap | src/input/queue.rs:102-128 | the slot being written is never the slot being read |
| InputQueue.RefusedOnlyWhenFull | src/input/queue.rs:87-96 | a push is refused only if 255 events were pending when it read the tail |
| InputQueue.EmptyOnlyWhenDrained | src/input/queue.rs:118-125 | a pop comes back empty only if nothing was pending when it read the head |
| TraceRing.StepInv | src/diagnostics/trace.rs:243-308 | every word access keeps slots, writers and readers consistent |
| TraceRing.NeverTorn | src/diagnostics/trace.rs:286-308 | over every interleaving a returned snapshot is exactly what the one call with its sequence number recorded |
| TraceRing.RecordsAreFinal | src/diagnostics/trace.rs:243-273 | no step changes what a finished call recorded |
| TraceExport.Recorder.TakeSnapshot | src/diagnostics/trace.rs:286-308 | among any steps of others, a snapshot returns a sequence number exactly if both looks at the slot found its commit word, and then what that call recorded |
| TraceExport.Recorder.ExportTail | src/diagnostics/crash.rs:428-454 | among any steps of others, the exported tail is strictly increasing, within the last 128, each entry what its call recorded, and holds exactly the records whose looks found them |
| Crc.StepIsTableStep | src/diagnostics/wire.rs:153-163 | eight shifts with a byte mixed in are one step of the table of section 8 of RFC 1952 |
| Crc.ComputeCrc32 | src/diagnostics/wire.rs:153-163 | the bitwise loop computes the CRC-32 of section 8 of RFC 1952 |
| Crc.CheckValue | src/diagnostics/wire.rs:153-163 | the checksum of the digits 1 to 9 is the published check value of CRC-32 |
| Capsule.BodyReadsBack | tools/crash_decode.py:210-226 | the walk recovers exactly the sections written, unless there are more than 256 |
| Capsule.BodyWritesBack | tools/crash_decode.py:210-226 | an accepted walk tiles the payload with the encodings of its sections |
| Capsule.RoundTrip | tools/crash_decode.py:171-226 | an encoded capsule passes every check and gives back its header and sections, whatever follows it |
| Capsule.AcceptedIsEncoded | tools/crash_decode.py:171-226 | what the decoder accepts is byte for byte the encoding of its report |
| CapsuleLayout.DigitAt | src/diagnostics/wire.rs:145-149 | byte i of a written field is digit i of the number in base 256, lowest first |
| CapsuleLayout.ValueIsSum | tools/crash_decode.py:18-19 | a field is read as the sum of its bytes times the powers of 256 |
| CapsuleLayout.EncodedIsLaidOut | src/diagnostics/crash.rs:586-602 | every header field, and every section with its five fields and payload, lies at its place, digit by digit |
| CapsuleLayout.AcceptedIsLaidOut | tools/crash_decode.py:171-226 | what the decoder accepts is laid out so, and its report says what lies there |
| CapsuleCodec.Writer.Reserve | src/diagnostics/wire.rs:90-101 | advances by the count if it fits, else marks the capsule truncated |
| CapsuleCodec.Writer.Append | src/diagnostics/wire.rs:119-125 | appends the whole value or nothing |
| CapsuleCodec.Writer.PatchWord | src/diagnostics/wire.rs:127-131 | overwrites four bytes already written with the digits of the value, or nothing |
| CapsuleCodec.Writer.WriteSection | src/diagnostics/wire.rs:133-150 | appends the encoding of the section with whatever of its payload fits |
| CapsuleCodec.Serialize | src/diagnostics/crash.rs:568-602 | the bytes are the encoding of the sections written, laid out digit by digit, and the decoder reads them back; the flag is set exactly when the whole does not fit, and else the whole is written |
| CapsuleCodec.CutExactly | src/diagnostics/wire.rs:90-150 | something is cut short exactly when the whole does not fit, and else the whole is written |
| CapsuleCodec.FinishHeader | src/diagnostics/crash.rs:581-602 | writes the encoded header with both checksums and leaves the sections alone |
| CapsuleCodec.ParseCapsule | tools/crash_decode.py:171-226 | the checks and the cursor walk, error for error; what is accepted lies in the bytes field by field, digit by digit |
| CapsuleCodec.WalkSections | tools/crash_decode.py:210-226 | the cursor walk reads the payload's sections, error for error |
| Calendar.ClosedForm | src/time.rs:120-123 | the closed form counts the days of every earlier year |
| Calendar.AgreesWithPosix | src/time.rs:135-148 | the conversion is the formula of POSIX.1-2017 XBD section 4.16, with the day of the year in closed form |
| Calendar.MonthsClosedForm | src/time.rs:110-133 | the days before a month are those of the Gregorian calendar's closed form |
| Calendar.SecondsBounded | src/time.rs:135-148 | every valid date has a second before the end of year 65535, within 64 bits |
| Calendar.StrictlyMonotone | src/time.rs:135-148 | a later date has a later second |
| Calendar.Injective | src/time.rs:135-148 | a date is determined by its second |
| Calendar.ComputeDaysBeforeMonth | src/time.rs:125-133 | the loop sums the months before |
| Calendar.YearOf | src/time.rs:155-167 | the binary search finds the year that contains the day |
| Calendar.MonthOf | src/time.rs:168-177 | the subtracting loop splits a day of the year into month and day |
| Calendar.DatetimeFromUnixSeconds | src/time.rs:150-190 | gives the valid date of every second through the end of year 65535, and none exactly beyond |
| Calendar.RoundTrip | src/time.rs:135-190 | every valid date survives the trip through seconds |
| LineEditing.VisibleIsUnbounded | src/terminal/pty.rs:282-297 | the edited line read backwards is the one built forwards |
| LineEditing.CappedExactly | src/terminal/pty.rs:282-297 | the capped line is the POSIX line if and only if that line has not exceeded the cap since it was last empty |
| LineEditing.ShortRunsExact | src/terminal/pty.rs:282-297 | it is for every run of at most 4096 bytes |
| LineEditing.LongRunDiffers | src/terminal/pty.rs:292-297 | it is not for 4097 bytes of text in a row |
| LineEditing.DeliversPosixLines | src/terminal/pty.rs:236-305 | over a whole input the bytes handed over are the POSIX lines if and only if no line handed over has overflowed |
| Pty.ChunkingIndependent | src/terminal/pty.rs:236-305 | pushing a then b is pushing a followed by b, in state and in outcome, raw or canonical |
| Pty.DeliversEditedLines | src/terminal/pty.rs:236-305 | the reader gets the edited lines in order, cut off at the queue's cap; the buffer holds what is typed since |
| Pty.ReadsPosixLines | src/terminal/pty.rs:236-305 | the reader's queue gets the POSIX lines unless one has overflowed, and if they fit, only then |
| Pty.StaysBounded | src/terminal/pty.rs:204-305 | the line stays within 4096 bytes and both queues within 65536 |
| Pty.PtyInner.PushSlaveRaw | src/terminal/pty.rs:204-209 | takes as many bytes as there is room for, in order, and says how many |
| Pty.PtyInner.Echo | src/terminal/pty.rs:213-220 | fills the output queue as far as its cap allows |
| Pty.PtyInner.PushSlaveInput | src/terminal/pty.rs:236-305 | raw, the bytes go to the queue as far as there is room; canonical, the effects of the keys one after another, state and outcome |
| Pty.FilledIs | src/terminal/pty.rs:204-220 | a queue takes as much as it has room for |
| Pty.SignalKey | src/terminal/pty.rs:252-266 | the interrupt and quit characters drop the line, echo ^C or ^\ and raise SIGINT or SIGQUIT, interrupt first |
| Pty.NewlineKey | src/terminal/pty.rs:251-273 | a line feed, or a carriage return under icrnl, hands the line over with a line feed |
| Pty.EofKey | src/terminal/pty.rs:274-281 | the end-of-file character hands a nonempty line over as it is and marks end of file on an empty one |
| Pty.KillKey | src/terminal/pty.rs:282-289 | the kill character empties the line and rubs out all of it, the reader's queue alone |
| Pty.EraseKey | src/terminal/pty.rs:290-293 | the erase character or a backspace takes the last byte of the line |
| Pty.TextKey | src/terminal/pty.rs:294-299 | any other byte joins the line and is echoed, unless the line is full |
| Pty.RuboutIs | src/terminal/pty.rs:285-292 | what is rubbed out is a backspace, a space and a backspace for each byte |
| Pty.EraseUndoesText | src/terminal/pty.rs:290-299 | an erase takes back the text typed just before it |
| Pty.TypedLineArrives | src/terminal/pty.rs:268-299 | a line of plain text reaches the reader with its line feed |
| Pty.PtyInner.SlaveRead | src/terminal/pty.rs:326-332 | hands out the queue in order, no more than asked for |
| Pty.PtyInner.ReadMasterOutput | src/terminal/pty.rs:382-388 | hands out the output in order, no more than asked for |
| Pty.PtyInner.TakePendingEof | src/terminal/pty.rs:310-317 | reports a pending end of file, after the queue is empty, and clears it |
| Pty.EofAccount | src/terminal/pty.rs:274-317 | over any run, ends of file reported and pending never exceed those typed, and equal them if and only if none was typed while one was pending |
| Pty.EofOncePerMark | src/terminal/pty.rs:307-317 | the promise of one report per end of file holds if and only if none is typed while one is pending |
| Pty.TwoMarksOneReport | src/terminal/pty.rs:274-317 | it fails for two in a row |

## Left out

- CR3 and TLB effects, context-switch code, per-CPU registers and all diagnostic shadow bookkeeping: hardware or observation only.
- Weak memory orderings: atomics are sequentially consistent here.
- mprotect-driven flag changes and the VMA set: `PageSteps.SetLeafFlagsInv` gives the condition under which a flag change is safe.
- `count_user_resident_pages`, `translate_addr`, MMIO and trampoline mapping, `handle_page_fault`, `unmap_user_region_into`: plain walks, or paths that do not aim at restoration.
- FrameAllocation.FrameAllocator.constructor: the consistent, all-free allocator before any frame is pinned; `InitFrameAllocator` is the whole of `init`, for a disjoint memory map.
- MemoryMapping.MemoryMapper.UserWrite: a user store is one byte; wider stores are several of them.
- MemoryMapping.MemoryMapper.DestroyUserTable: the asserts against huge entries and the case of entries not present are absent, because the invariant rules such entries out.
- Time slices, watchdog fields, signal waiters and names of processes; `wake_threads_waiting_for_ring3_exit` is a loop of wakes.
- SchedulerWaiting.BoundedWaiting: for a kernel thread, dispatches by `pop_next_user` are not counted, because they never take one (`PopPassesThreads`).
- The user-mode half of the wake drain, the readiness retry of the timer service and the effects of delivered timer actions.
- `Arc::get_mut`, `try_unwrap` and the sentinel of `Weak::new`, which owns no allocation.
- The meaning of section payloads (`_decode_section`) and report rendering; `fnv1a64`; the backtrace walk.
- `slave_write` and its output processing.
- The rest of `ensure_user_page`: its VMA checks and file reads. Only what it does to frames and tables is modelled.
- File systems, networking, graphics, drivers, tools and the boot sequence.
