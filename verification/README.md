# Virtual memory of the mnu kernel, in Dafny

A model of the memory subsystem of the kernel, and of its byte streams, with proofs of what the
subsystem is for. Every module follows one source component. Code that updates state in place is a
class whose methods are proved against functions on values. Concurrent protocols are state machines
over their atomic steps, and the main theorems speak about every run.

| file | component |
|---|---|
| `FrameRefs.dfy` | the open-addressing ledger of shared frame owners |
| `TlbRendezvous.dfy` | the shootdown ledger, and reuse of frames under arbitrary TLB refills |
| `CopyOnWrite.dfy`, `AddressSpaces.dfy`, `FrameLedger.dfy` | fork, copy-on-write and protection against eager copying, and exact frame ownership |
| `MappingRevocation.dfy` | the all-or-nothing revocation journal |
| `ExtentTransaction.dfy`, `ExtentCleanup.dfy` | extent updates with suspended mappings and their cleanup queue |
| `ObjectIo.dfy` | the I/O gate of a backing object: guards, intents, reservations, generations |
| `PageCache.dfy`, `PageTable.dfy` | the object page cache under racing loads, writes, staging, flushes and eviction |
| `ByteExtent.dfy`, `SharedMemory.dfy`, `PageBytes.dfy` | resizable memory objects against a flat byte array |
| `FrameAllocator.dfy` | the physical frame allocator |
| `SparseWalk.dfy`, `MappingUsage.dfy` | sparse leaf discovery and address-space usage |
| `RootLifetime.dfy` | pins, retirement and destruction of page-table roots |
| `ByteStream.dfy` | blocking byte streams |
| `Common.dfy` | shared datatypes, and lists of waiters |

## Where the code does not keep its promise

Two of the properties one would expect are false of the code. Both are kept as the code has them,
with a concrete failing run, the exact condition under which the property holds, and a proof over
every run that meets it.

- Clean-cache agreement. `page_with_len` looks for the page first and captures the mutation epoch
  afterwards (src/mem/vm_object.rs:316-321). If the page is staged dirty in between, the loader reads
  old bytes, a flush writes the new ones and marks the page clean without moving the epoch, eviction
  removes it, and the loader installs the old bytes. `PageCache.LoadIsHarmlessIff` gives the
  condition: at the capture the page is settled, that is, neither a dirty entry nor a snapshot in
  flight would still change it in the lower store, or a gated write is in flight and its end will
  move the epoch before the dirty entry can leave.
- Destruction of pinned roots. `pin_with` prunes dead registrations and then searches, and pins drop
  without the registry lock (src/mem/root_lifetime.rs:42-47). If the last pin drops in between, the
  new registration is appended behind a dead one, `retire` finds the dead one and the table is
  destroyed under the new pin. When the address is used again, the old pins can even destroy the new
  root (`RootLifetime.ReuseIsDestroyedAstray`). `RootLifetime.AcquisitionIsHarmlessIff` gives the
  condition.

Four smaller observations. The gate's generation wraps at 64 bits, so a stale snapshot is refused
exactly until the generation has moved a multiple of two to the 64th (`GateRuns.SnapshotMatchesIff`;
`GateRuns.WrapRoundInstallsOldSnapshot` gives the run).
Cloning a private leaf twice without authorization keeps its right to write later if the leaf is
present, and takes it away if it is not (`CopyOnWrite.ClonePrivateKeepsAuthority`).
Destroying a table skips leaves that are not present (src/mem/paging.rs:2275-2280), so their frame
references are never given back; `FrameLedger.AllocatedIffReferenced` says that these are the only
frames that stay allocated without anybody referring to them.
A contiguous request gives up at the first region whose run would pass the end of the address space
(src/mem/frame.rs:282), even if a later region has room; `FrameAllocator.ScanRunMissesIff` states it
exactly, and `FrameAllocator.LowRegionsNeverStop` when it makes no difference.

## How the models stand to the code

- A spinlock's critical section is one step, except where it reads an atomic flag that another CPU
  may change meanwhile; there the flag is read in a step of its own (`GateRuns`).
- Allocation failure, I/O results, fault results and the choice of frames are parameters of the steps.
- Integers are unbounded; widths are written out where the code checks, saturates or wraps them.
- In `CopyOnWrite` the fork policy of a page must agree with the kind of its region, as the caller
  derives it from the region; `Consistent` says so. TLB staleness is the subject of `FrameReuse`.
- In `PageCache` a page is its zero-extended 4096 bytes, so agreement is proved for all of them;
  the lower store reads holes as zeros, a provider request is atomic, and a refused lower write
  leaves the lower store unchanged. Eviction of a clean page may happen at any moment.
- In `ExtentTransaction` a preparation lists each leaf once: captured ranges of one root are refused
  when they overlap (src/mem/mapping_targets.rs:104-112) and every range is walked upwards
  (src/mem/extent_transaction.rs:221-247). Others may edit page tables and frames at any moment.
- In `RootLifetime` a caller pins a table only while it owns it and does not give it up during the
  acquisition, and the native checks before destruction succeed.
- In `FrameAllocator` callers give back only frames they were handed, and write only into frames
  they own; the cookie function is arbitrary.
- In `MappingUsage` the leaf query is any function; exactness is proved for queries that return the
  least leaf, and `MappingUsage.TableUsage` uses the sparse walk as such a query.

## Model

| member | source | states |
|---|---|---|
| `FrameRefs.RetainReleaseRoundTrip` | src/mem/frame_refs.rs:33-89 | retaining and then releasing a frame gives the old ledger back, whatever it held |
| `FrameRefs.EmptyMeansAbsent` | src/mem/frame_refs.rs:33-63 | an empty slot on the probe path means the ledger has no entry for the frame, tombstones included |
| `FrameRefs.ProbeEnds` | src/mem/frame_refs.rs:33-63 | a probe cannot pass every slot, because live and deleted slots never fill the table |
| `FrameRefs.InsertKeeps` | src/mem/frame_refs.rs:50-63 | an insertion into an empty or reused slot keeps keys unique and every other key reachable |
| `FrameRefs.RewriteKeeps` | src/mem/frame_refs.rs:65-89 | rewriting or deleting one live slot changes that key of the ledger and no other |
| `FrameRefs.LiveIsLedger` | src/mem/frame_refs.rs:108-124 | there are as many live slots as frames in the ledger |
| `FrameRefs.FrameReferenceTable.constructor` | src/mem/frame_refs.rs:25-31 | a new table counts one owner for every frame |
| `FrameRefs.FrameReferenceTable.Seek` | src/mem/frame_refs.rs:35-49 | the probe loop ends at the frame's slot or at the empty slot that proves it absent, and reports the first tombstone on the way, or none exactly when it met none |
| `FrameRefs.FrameReferenceTable.Retain` | src/mem/frame_refs.rs:33-63 | one more owner in the ledger, or an error that leaves every count; an error needs a failed allocation, a full count, or a ledger that fills a quarter of all addressable slots |
| `FrameRefs.FrameReferenceTable.Release` | src/mem/frame_refs.rs:65-89 | one owner fewer in the ledger; the answer says exactly whether it was the last one |
| `FrameRefs.FrameReferenceTable.HasMultipleOwners` | src/mem/frame_refs.rs:91-106 | true exactly when the ledger counts more than one owner |
| `FrameRefs.FrameReferenceTable.EnsureInsertCapacity` | src/mem/frame_refs.rs:108-124 | room for one insertion within three quarters of the slots, without changing a count |
| `FrameRefs.FrameReferenceTable.Rehash` | src/mem/frame_refs.rs:126-145 | a rehash keeps the whole ledger and leaves no tombstone; a failed one changes nothing |
| `FrameRefs.FrameReferenceTable.Place` | src/mem/frame_refs.rs:132-142 | one entry moves into the new slots without disturbing those already moved |
| `FrameRefs.FrameReferenceTable.Replay` | src/mem/frame_refs.rs:33-106 | after any history of retains, releases and queries, table and answers are those of the map from frames to owner counts; a retain is refused only for the reasons above |
| `TlbRendezvous.Rendezvous.constructor` | src/mem/tlb_rendezvous.rs:28-40 | an idle ledger |
| `TlbRendezvous.Rendezvous.Publish` | src/mem/tlb_rendezvous.rs:42-71 | a publication raises the sequence once and every target's request to it; an unknown CPU or an exhausted sequence is refused and changes nothing |
| `TlbRendezvous.Rendezvous.Service` | src/mem/tlb_rendezvous.rs:73-90 | a service acknowledges the request it loaded before its flush, and only if the flush succeeded |
| `TlbRendezvous.Rendezvous.Complete` | src/mem/tlb_rendezvous.rs:100-105 | complete exactly when every target has acknowledged the generation |
| `TlbRendezvous.RequestedStep` | src/mem/tlb_rendezvous.rs:57-65 | the store loop is its single atomic requests in order |
| `FrameReuse.Run` | src/mem/tlb_rendezvous.rs:42-106 | over every interleaving, sequence, requests and acknowledgements never move backward |
| `FrameReuse.RunKeeps` | src/mem/tlb_shootdown.rs:19-56 | every interleaving of publishers, reentrant services, CPUs coming online, TLB refills and journals keeps the ledger, cache and journal invariants |
| `FrameReuse.FreeFrameIsUncached` | src/mem/mapping_revocation.rs:99-176 | after any interleaving, a frame that no leaf retains is in no CPU's TLB |
| `FrameReuse.AcknowledgementMeansFlush` | src/mem/tlb_rendezvous.rs:73-90 | an acknowledged generation means a full flush of that CPU began when the sequence had already reached it |
| `FrameReuse.ReleaseFollowsCompletion` | src/mem/mapping_revocation.rs:166-176 | a leaf goes away only by the release of an acknowledged journal, when no CPU caches it any more |
| `FrameReuse.CompleteIsUncached` | src/mem/tlb_shootdown.rs:36-56 | once a publication is complete, no CPU holds a translation of a leaf its journal suspended |
| `FrameReuse.OnlineKeeps` | src/mem/tlb_shootdown.rs:19-22 | a CPU that comes online between snapshot and completion breaks nothing |
| `FrameReuse.SuspendKeeps` | src/mem/mapping_revocation.rs:145-156 | suspension before publication keeps the invariants while CPUs refill |
| `FrameReuse.RestoreKeeps` | src/mem/mapping_revocation.rs:54-60 | a restored leaf is what it was before its suspension, PRESENT bit included, and is no longer held |
| `FrameReuse.SuspensionRollsBack` | src/mem/mapping_revocation.rs:54-60 | over any run that does not release it, a leaf is either suspended with its frame and its old PRESENT bit kept, or exactly what it was |
| `CopyOnWrite.ClonePrivateKeepsAuthority` | src/mem/cow_access.rs:22-25 | what a private clone does to the write and copy-on-write bits, and when the authority to write later survives |
| `CopyOnWrite.ResolveLockedSimulates` | src/mem/paging.rs:690-729 | breaking copy-on-write, in place or into a copy, changes nothing any address space reads |
| `CopyOnWrite.ResolveGrantsWrite` | src/mem/paging.rs:670-729 | a successful resolve leaves the page writable, with the bytes it had, on a frame that no other leaf maps and nobody pins |
| `CopyOnWrite.ProtectSimulates` | src/mem/paging.rs:552-625 | a protection change leaves every read as it was, and write access never reaches a shared private frame |
| `CopyOnWrite.StoreSimulates` | src/mem/paging.rs:804-850 | a store through a writable leaf is the same store in the eager reference |
| `CopyOnWrite.CopyChunkSimulates` | src/mem/paging.rs:820-850 | one chunk of a kernel copy resolves copy-on-write first and is then one store of the reference |
| `CopyOnWrite.CopyChunkRefusesIff` | src/mem/paging.rs:820-850 | a chunk is refused exactly without write access or without a spare frame to break copy-on-write with, and a refusal changes nothing |
| `CopyOnWrite.CloneLeafSimulates` | src/mem/paging.rs:1606-1716 | one forked leaf, private or shared, is one eager copy or one alias; a failure is neither |
| `CopyOnWrite.MapSharedSimulates` | src/mem/paging.rs:2495-2550 | mapping a shared frame is one alias of its object |
| `CopyOnWrite.DropLeafSimulates` | src/mem/paging.rs:2270-2290 | dropping a present leaf removes it from the reference, and frees the frame exactly with its last owner |
| `CopyOnWrite.StepSimulates` | src/mem/paging.rs:551-2550 | every operation is matched by one action of eager copying |
| `CopyOnWrite.RunSimulates` | src/mem/paging.rs:551-2550 | every run stays in the simulation relation |
| `CopyOnWrite.ReadsAreEager` | src/mem/paging.rs:1467-1727 | after any run every address space reads what it would read had each fork copied its private pages at once and aliased its shared ones |
| `CopyOnWrite.WritablePrivateFrameIsUnshared` | src/mem/paging.rs:670-729 | after any run the frame of a writable private leaf has no other mapper and no pin |
| `CopyOnWrite.FreedFramesAreUnreferenced` | src/mem/paging.rs:635-639 | after any run no leaf and no pin refers to a freed frame |
| `CopyOnWrite.ForkAllCopiesAtOnce` | src/mem/paging.rs:1467-1727 | forking page by page is copying the whole space at one moment |
| `CopyOnWrite.RemoveUndoesFork` | src/mem/paging.rs:1467-1727 | removing a forked space gives the reference back as it was |
| `FrameLedger.RunIsExact` | src/mem/paging.rs:551-2550 | every run of these operations keeps the owner count of every frame equal to its leaves, pins and forgotten references |
| `FrameLedger.OwnersAreExact` | src/mem/paging.rs:635-639 | after any run the owner count of an allocated frame is the number of its leaves, its pins and the references that destroyed tables forgot |
| `FrameLedger.AllocatedIffReferenced` | src/mem/paging.rs:2270-2290 | after any run a frame is allocated exactly if a leaf or a pin refers to it or a destroyed table forgot it with a leaf that was not present |
| `FrameLedger.ReleaseIsExact` | src/mem/paging.rs:635-639 | a dropped reference leaves the count, and with the last one the frame is free |
| `AddressSpaces.AddressSpaces.ResolveCopyOnWrite` | src/mem/paging.rs:670-729 | the page-table edit of a resolve, its outcome, and an unchanged reference |
| `AddressSpaces.AddressSpaces.ProtectUserPage` | src/mem/paging.rs:552-625 | the edit of a protection change in each case, and an unchanged reference |
| `AddressSpaces.AddressSpaces.CopyToUser` | src/mem/paging.rs:804-850 | the page loop stores exactly the bytes it copied; a refusal names the page after them, which has no write access or no spare frame |
| `AddressSpaces.StoreRangeWrites` | src/mem/paging.rs:804-850 | storing a range page by page writes, byte for byte, that range of that space and nothing else on any private page |
| `AddressSpaces.AddressSpaces.CopyPage` | src/mem/paging.rs:820-850 | one page of the copy: stored in full or not at all |
| `AddressSpaces.AddressSpaces.StorePage` | src/mem/paging.rs:830-850 | a store needs a present writable leaf and is otherwise denied |
| `AddressSpaces.AddressSpaces.ClonePage` | src/mem/paging.rs:1606-1716 | one page of a fork, source disarmed before the frame is shared |
| `AddressSpaces.AddressSpaces.CloneUserPageTable` | src/mem/paging.rs:1467-1727 | a whole fork is the eager fork of its pages, or fails and changes nothing any space reads; a failure has a page without room, listed twice, or whose owner count could fill up |
| `AddressSpaces.AddressSpaces.DestroyUserPageTable` | src/mem/paging.rs:2268-2340 | destroying a table removes its space from the reference and touches no other |
| `AddressSpaces.AddressSpaces.DestroyPage` | src/mem/paging.rs:2270-2290 | one entry of the destruction loop |
| `MappingRevocation.SortSorts` | src/mem/mapping_revocation.rs:113-113 | sorting the plan orders it and keeps its ranges with their multiplicity |
| `MappingRevocation.NeighboursSuffice` | src/mem/mapping_revocation.rs:113-120 | after sorting, an overlap of neighbours exists exactly when some two ranges of one table overlap |
| `MappingRevocation.SortKeepsMeaning` | src/mem/mapping_revocation.rs:104-113 | sorting keeps well-formedness, disjointness and the covered leaves |
| `MappingRevocation.OverlapSelectsBackingBytes` | src/mem/mapping_revocation.rs:180-201 | the overlap of a mapping is exactly the addresses that map the backing range; refused are exactly a reversed range and the two overflows |
| `MappingRevocation.Suspension.Rollback` | src/mem/mapping_revocation.rs:54-60 | dropping a journal restores every entry as it was |
| `MappingRevocation.Suspension.Acquire` | src/mem/mapping_revocation.rs:99-160 | all leaves of the ranges are suspended once each, or an error leaves every entry as it was, whichever allocation or backend call fails |
| `MappingRevocation.Suspension.Discover` | src/mem/mapping_revocation.rs:121-141 | the discovery loop lists every leaf of the plan once, before any edit |
| `MappingRevocation.Suspension.SuspendAll` | src/mem/mapping_revocation.rs:142-159 | the suspension loop, rolled back on a failure anywhere |
| `MappingRevocation.Suspension.CommitWith` | src/mem/mapping_revocation.rs:166-176 | a commit releases each suspended leaf exactly once; a failed commit restores them all |
| `MappingRevocation.RevokeWith` | src/mem/mapping_revocation.rs:88-97 | revocation is all or nothing, succeeds whenever the backend, the commit and every allocation do, and removes exactly the leaves of the ranges |
| `ExtentTransaction.SuspendRestoreRoundTrip` | src/mem/paging/suspension.rs:129-180 | restoring a suspended entry gives the page table back |
| `ExtentTransaction.ResolveKeeps` | src/mem/extent_transaction.rs:443-493 | the resolution loop keeps every suspended page in the records or the resolved list, in order, marks each by the one decision of the phase, and succeeds only with no record left |
| `ExtentTransaction.ResolveFrame` | src/mem/extent_transaction.rs:443-493 | resolution edits no entry except those of its records |
| `ExtentTransaction.ResolveMoves` | src/mem/extent_transaction.rs:443-493 | when resolution returns, each page it took off is absent from the page table if released and the original up to accessed and dirty bits if restored, a published boundary page is zero from its offset on, every other entry is as before, and exactly the released frames were given back |
| `ExtentTransaction.ResolveCompletes` | src/mem/extent_transaction.rs:443-493 | resolution completes when every record is current |
| `ExtentTransaction.StepMoves` | src/mem/extent_transaction.rs:295-433 | every owner call and every cleanup pass does this to the pages of its own transaction and leaves the records of all others alone |
| `ExtentTransaction.OnlyResolutionFrees` | src/mem/extent_transaction.rs:195-293 | preparing a transaction gives no frame back and writes no byte |
| `ExtentTransaction.EverySuspendedPageIsResolvedOnce` | src/mem/extent_transaction.rs:195-516 | after any run each suspended page stands once in the records or once in the resolved list, and a finished transaction has resolved them all |
| `ExtentTransaction.OneDecisionForAllPages` | src/mem/extent_transaction.rs:443-493 | after any run the resolved list follows one decision: restored from Prepared or Unchanged, never an affected page without boundary after publication, released when unavailable, cleared exactly at a published boundary |
| `ExtentTransaction.PagesLeaveByTheirFate` | src/mem/extent_transaction.rs:443-493 | after any run and at every next step, a page that moves from the records to the resolved list has that fate in the page tables and frames after the step |
| `ExtentTransaction.DecisionIsFinal` | src/mem/extent_transaction.rs:295-401 | no continuation revises a decision or forgets a transaction |
| `ExtentTransaction.LostOwnerQuarantines` | src/mem/extent_transaction.rs:416-433 | an owner lost in flight leads only to quarantine: every page resolved since is marked released |
| `ExtentTransaction.QuarantineEmptiesEntries` | src/mem/extent_transaction.rs:416-433 | whatever the continuation, a page a lost owner suspended has no page-table entry when it leaves the records |
| `ExtentTransaction.CleanupCompletes` | src/mem/extent_transaction.rs:499-516 | one pass ends a queued transaction once its entries are its own and the lock is free |
| `ExtentTransaction.ProgressCompletes` | src/mem/extent_transaction.rs:416-433 | an attempt that finds every entry current and the cache willing completes an abandoned work in every phase |
| `ExtentTransaction.CancelUndoesSuspension` | src/mem/extent_transaction.rs:266-284 | resolving a prepared work undoes its suspensions wherever preparation stopped |
| `ExtentTransaction.CancelledPreparationChangesNothing` | src/mem/extent_transaction.rs:195-293 | a failed or dropped preparation leaves the page tables as they were |
| `ExtentTransaction.RunKeeps` | src/mem/extent_transaction.rs:195-516 | every run of owners, drops, cleanup passes and foreign page-table edits keeps the invariant of every transaction |
| `ExtentCleanup.Work.SuspendAll` | src/mem/extent_transaction.rs:266-284 | the suspension loop of a preparation, with the record published before a later check can fail |
| `ExtentCleanup.Work.Resolve` | src/mem/extent_transaction.rs:443-493 | the popping loop in place, with the byte-clearing loop, the entry edit and the released frames |
| `ExtentCleanup.Machine.ClearSuffix` | src/mem/extent_transaction.rs:458-466 | the byte loop clears a frame from the offset to its end and writes no other byte |
| `ExtentCleanup.Work.PublishCache` | src/mem/extent_transaction.rs:404-414 | the cache is published only when every record is current |
| `ExtentCleanup.Work.Progress` | src/mem/extent_transaction.rs:416-433 | one cleanup attempt of a work in each phase |
| `ExtentCleanup.Cleanup.Flush` | src/mem/extent_transaction.rs:499-516 | a pass is one attempt on each queued work in order: page tables, works and remaining queue are exactly those of the fold, and only completed work leaves |
| `ExtentCleanup.Cleanup.Attempt` | src/mem/extent_transaction.rs:506-510 | one attempt, unless the mapping lock is busy |
| `ExtentCleanup.SweepAttempts` | src/mem/extent_transaction.rs:499-516 | a pass keeps the history and the decision of every work, and a completed work has no record left |
| `ExtentCleanup.SweepCompletes` | src/mem/extent_transaction.rs:499-516 | a work that is not locked out and whose entries are its own completes in the pass |
| `ObjectIo.RemovedKeepsOrder` | src/mem/object_io.rs:258-269 | cancellation anywhere keeps the other tickets, strictly increasing |
| `ObjectIo.Gate.constructor` | src/mem/object_io.rs:34-42 | an idle healthy gate at generation one |
| `ObjectIo.Gate.TryLock` | src/mem/object_io.rs:126-147 | an ordinary caller enters exactly an idle, healthy gate that no intent waits for |
| `ObjectIo.Gate.Intent` | src/mem/object_io.rs:154-174 | a new intent goes to the end of the queue with the next ticket; a refused one changes nothing |
| `ObjectIo.Gate.Acquire` | src/mem/object_io.rs:235-255 | the front intent of an idle healthy gate takes it and wakes the waiters; otherwise nothing changes |
| `ObjectIo.Gate.CancelIntent` | src/mem/object_io.rs:258-269 | the search loop removes this ticket only and wakes the waiters |
| `ObjectIo.Gate.RegisterWaiter` | src/mem/object_io.rs:207-222 | a waiter is registered once, within the bound |
| `ObjectIo.Gate.RemoveWaiter` | src/mem/object_io.rs:224-231 | every registration of this waiter goes, the others stay in order |
| `ObjectIo.Gate.Leave` | src/mem/object_io.rs:309-317 | a dropped guard opens the gate and wakes everybody |
| `ObjectIo.Gate.Wake` | src/mem/object_io.rs:44-54 | the waiter list is taken and each member called back once, in order |
| `ObjectIo.Gate.Reserve` | src/mem/object_io.rs:277-281 | a reservation raises the flag and moves the 64-bit generation |
| `ObjectIo.Gate.MarkUnavailable` | src/mem/object_io.rs:294-299 | the first failure moves the generation and wakes everybody; later ones change nothing |
| `ObjectIo.Gate.DropReservation` | src/mem/object_io.rs:302-317 | a dropped reservation clears the flag, opens the gate and wakes everybody |
| `GateRuns.RunKeeps` | src/mem/object_io.rs:120-318 | every interleaving of the gate's callers keeps one holder, honest flags, the ticket queue and the generation count |
| `GateRuns.ApplySection` | src/mem/object_io.rs:126-318 | whatever a caller does, the shared state changes by one of the gate's critical sections or one flag |
| `GateRuns.OneGuardAtATime` | src/mem/object_io.rs:126-147 | in every run at most one caller owns the gate |
| `GateRuns.NoGuardAfterFailure` | src/mem/object_io.rs:126-147 | once failure is latched it stays, and no caller is handed a guard, even when a release races the two checks |
| `GateRuns.OnlyTheFrontIsAdmitted` | src/mem/object_io.rs:126-138 | while intents wait, the gate goes only to the owner of the first one |
| `GateRuns.NobodyOvertakes` | src/mem/object_io.rs:149-174 | over any run, whoever is queued before a waiting intent was queued before it already |
| `GateRuns.ConsumedForGood` | src/mem/object_io.rs:233-255 | a ticket that left the queue never returns |
| `GateRuns.ReadinessWakes` | src/mem/object_io.rs:198-270 | a step that makes a queued intent ready drains the waiters in the same step |
| `GateRuns.NoLostWakeup` | src/mem/object_io.rs:196-231 | a registered waiter whose intent becomes ready has been woken since |
| `GateRuns.SnapshotMatchesIff` | src/mem/object_io.rs:120-123 | a captured generation matches later exactly when it moved a multiple of two to the 64th |
| `GateRuns.ReservationFencesSnapshots` | src/mem/object_io.rs:277-281 | a generation captured at any time before a reservation never matches once the reserving call moved it, and no page loaded under it is installed from the start of the reservation on, within two to the 64th generations |
| `GateRuns.FailureFencesSnapshots` | src/mem/object_io.rs:294-299 | the same for the failure latch: from its swap on nothing is installed, and once it moved the generation no earlier capture matches within two to the 64th generations |
| `GateRuns.UnavailableRefusesSnapshots` | src/mem/vm_object.rs:1227-1242 | nothing is installed once failure is latched |
| `GateRuns.WrapRoundInstallsOldSnapshot` | src/mem/object_io.rs:120-123 | the run on which the fence ends: a reservation and two to the 64th generations later the old snapshot can be installed |
| `PageCache.LoadIsHarmlessIff` | src/mem/vm_object.rs:298-339 | a load keeps clean-cache agreement in every continuation exactly when its page was safe at the epoch capture |
| `PageCache.CarefulRunsAgree` | src/mem/vm_object.rs:298-752 | over every run whose loads capture their epoch on safe pages, each resident byte outside the dirty range and the write in flight equals the lower store |
| `PageCache.CarefulRunsAgreeFromStart` | src/mem/vm_object.rs:298-752 | the same from the empty cache |
| `PageCache.StaleLoadIsReachable` | src/mem/vm_object.rs:298-339 | a concrete run of two callers on which agreement fails |
| `PageCache.UnsafeCaptureGoesWrong` | src/mem/vm_object.rs:316-332 | from any reachable state, an unsafe capture has a continuation that ends in a stale resident page |
| `PageCache.DirtyLoadGoesWrong` | src/mem/vm_object.rs:316-332 | the failing schedule for a page dirty at the capture |
| `PageCache.OldSnapshotGoesWrong` | src/mem/vm_object.rs:659-752 | the failing schedule for a page with an older snapshot still in flight |
| `PageCache.ApplyKeeps` | src/mem/vm_object.rs:298-1191 | one careful step of any caller keeps agreement and every loader's claim |
| `PageCache.LoaderKeeps` | src/mem/vm_object.rs:1127-1191 | a loader, stager or frame preparer inserts a page only where it equals the lower store |
| `PageCache.StageKeeps` | src/mem/vm_object.rs:562-617 | a staged write keeps agreement outside the grown dirty range |
| `PageCache.WriteLowerKeeps` | src/mem/vm_object.rs:404-417 | the lower half of a gated write disagrees only inside itself |
| `PageCache.WriteDoneKeeps` | src/mem/vm_object.rs:944-1027 | the cache half of a gated write restores agreement |
| `PageCache.FlushPageKeeps` | src/mem/vm_object.rs:696-711 | writing one snapshot back keeps agreement while stagers go on |
| `PageCache.FlushEndKeeps` | src/mem/vm_object.rs:712-752 | sync, clean-marking and failure of a flush keep agreement |
| `PageCache.EvictKeeps` | src/mem/vm_object.rs:1152-1167 | evicting a clean page keeps agreement |
| `PageCache.SyncedBeforeClean` | src/mem/vm_object.rs:723-748 | a page turns clean only after its dirty bytes were written and synced |
| `PageCache.StagedStaysDirty` | src/mem/vm_object.rs:726-744 | bytes staged during a flush stay dirty through its end, until a later flush begins |
| `PageCache.StagingOutrunsSnapshots` | src/mem/vm_object.rs:609-617 | a staged write gets a newer version than any snapshot in flight |
| `PageTable.PiecesWriteTheRange` | src/mem/vm_object.rs:966-1002 | splitting a transfer into pages writes exactly its bytes and no other |
| `PageTable.CacheVector.Find` | src/mem/vm_object.rs:789-797 | the entry of a key, or proof that there is none |
| `PageTable.CacheVector.Victim` | src/mem/vm_object.rs:1152-1160 | the least recently used evictable entry, or none exactly when no entry is evictable |
| `PageTable.CacheVector.CacheOrSnapshot` | src/mem/vm_object.rs:1127-1191 | an existing entry wins, a moved epoch is refused, a full cache evicts its one least recently used clean page or bypasses exactly when it has none, and the page is inserted clean |
| `PageTable.CacheVector.StageInto` | src/mem/vm_object.rs:562-617 | one staged write into a resident entry |
| `PageTable.CacheVector.UpdateCachedRange` | src/mem/vm_object.rs:944-1027 | the refresh loop gives every resident page of the object its part of the bytes and touches no other object |
| `PageTable.CacheVector.TakeSnapshots` | src/mem/vm_object.rs:660-695 | the snapshot loop copies exactly the dirty entries that touch the range |
| `PageTable.CacheVector.MarkClean` | src/mem/vm_object.rs:726-744 | only entries whose version the flush wrote become clean |
| `ByteExtent.CapacityIsCeiling` | src/mem/byte_extent.rs:14-28 | capacity is the least whole number of pages that holds the length |
| `ByteExtent.CapacityRefusesIff` | src/mem/byte_extent.rs:14-28 | a power-of-two page size is refused exactly when no page count within the page limit and 64 bits holds the length |
| `ByteExtent.PlanGeometry` | src/mem/byte_extent.rs:30-58 | the zeroed span lies in one page, and every byte a resize rewrites or drops lies in the span revoked first |
| `SharedPages.PopulateRefines` | src/mem/shared_pages.rs:217-232 | populating a page changes no byte of the object |
| `SharedPages.PokeRefines` | src/mem/shared_memory.rs:215-237 | a store into a page, also past the length, is that store on the flat array cut off at its end |
| `SharedPages.ResizeRefines` | src/mem/shared_pages.rs:144-212 | a resize keeps every byte below both lengths, exposes only zeros, and leaves no page beyond the extent |
| `SharedMemoryRuns.RunRefines` | src/mem/shared_memory.rs:131-237 | after any history the object is what the flat array became under the same effects; refused resizes have none |
| `SharedMemoryRuns.InstalledIsCurrent` | src/mem/shared_memory.rs:88-115 | a prepared page whose generation still matches is the current frame of its index, whatever shrank or grew meanwhile |
| `SharedMemoryRuns.GenerationMovesWithLength` | src/mem/shared_memory.rs:131-181 | the generation moves exactly when the length does, and otherwise no page changes its frame |
| `SharedMemory.Create` | src/mem/shared_memory.rs:33-50 | a new object of zeros, refused exactly when the byte geometry refuses its length, with the error of each refusal |
| `SharedMemory.MemoryObject.PageOrTryInsert` | src/mem/shared_pages.rs:217-232 | the frame of a page, populated if absent, with both error cases exactly |
| `SharedMemory.MemoryObject.WriteAt` | src/mem/shared_memory.rs:200-213 | the chunk loop stores the whole input, or the prefix before a page for which no frame is left, or nothing past the end |
| `SharedMemory.MemoryObject.ReadAt` | src/mem/shared_memory.rs:183-198 | the chunk loop returns the bytes from the offset, cut off at the length, or fails at a page for which no frame is left |
| `SharedMemory.MemoryObject.ReadAll` | src/mem/shared_memory.rs:215-237 | the loop over pages of a read below the length: the bytes of the range, or the page at which frames ran out |
| `SharedMemory.MemoryObject.Resize` | src/mem/shared_memory.rs:131-181 | a resize truncates or appends zeros exactly when it is permitted, and otherwise changes nothing |
| `SharedMemory.MemoryObject.Commit` | src/mem/shared_pages.rs:175-196 | zeroing, removal and the new length as one action |
| `SharedMemory.MemoryObject.ZeroBoundary` | src/mem/shared_memory.rs:161-168 | the byte loop clears exactly the boundary span |
| `SharedMemory.MemoryObject.RemovePages` | src/mem/shared_pages.rs:181-192 | the popping loop drops exactly the pages at or beyond the first removed one |
| `FrameAllocator.RunKeeps` | src/mem/frame.rs:115-438 | every run of allocations, contiguous reservations, frees of handed-out frames and user writes keeps exact ownership, for any memory map and any cookie function |
| `FrameAllocator.OnePlaceOnly` | src/mem/frame.rs:156-237 | no frame is in two of: outstanding, quarantined, free-listed, beyond the cursor |
| `FrameAllocator.NoFrameTwice` | src/mem/frame.rs:156-196 | neither quarantine nor free list holds a frame twice |
| `FrameAllocator.LinksVisitTheFreeList` | src/mem/frame.rs:156-162 | the links inside the frames visit every free frame once and end |
| `FrameAllocator.HandedOutIsUsable` | src/mem/frame.rs:404-437 | every frame handed out is aligned and lies wholly inside a usable region, also of an unsorted map |
| `FrameAllocator.DeallocateKeeps` | src/mem/frame.rs:206-237 | a free is accepted exactly for an outstanding frame that does not carry its own cookie; a second free is refused |
| `FrameAllocator.AllocateKeeps` | src/mem/frame.rs:357-438 | an allocation returns a frame that was not outstanding, and no other frame changes hands |
| `FrameAllocator.TakeFreeKeeps` | src/mem/frame.rs:363-402 | the list head always passes its own checks, so the corruption branches are not reached |
| `FrameAllocator.ReserveKeeps` | src/mem/frame.rs:261-296 | a contiguous run consists of frames never handed out before |
| `FrameAllocator.ScanFinds` | src/mem/frame.rs:404-437 | a scan finds only whole usable frames at or beyond the cursor |
| `FrameAllocator.ScanRunFinds` | src/mem/frame.rs:261-296 | the same for a contiguous run |
| `FrameAllocator.ScanMissesIff` | src/mem/frame.rs:404-437 | the scan comes back empty exactly when no remaining region has a whole usable frame at or beyond the cursor |
| `FrameAllocator.ScanRunMissesIff` | src/mem/frame.rs:261-296 | the run scan comes back empty exactly when no region has room before the first one whose run would overflow |
| `FrameAllocator.AllocateRefusesIff` | src/mem/frame.rs:357-438 | the allocator is out of frames exactly when none is free or quarantined and none is left beyond the cursor |
| `FrameAllocator.ReserveRefusesIff` | src/mem/frame.rs:261-296 | a contiguous request is refused exactly for a zero or unrepresentable count or when the run scan finds no room |
| `FrameAllocator.LowRegionsNeverStop` | src/mem/frame.rs:281-285 | where every region ends a page below the top of the address space, an empty run scan means that no remaining region has room |
| `FrameAllocator.TopRegionHidesTheRest` | src/mem/frame.rs:281-285 | a map on which it does not: a region at the very top hides a later one that has room |
| `FrameTable.MnuFrameAllocator.constructor` | src/mem/frame.rs:96-113 | an empty allocator whose cursor starts at one mebibyte |
| `FrameTable.MnuFrameAllocator.SetPhysOffset` | src/mem/frame.rs:448-453 | frees become possible once physical memory is mapped; nothing else changes |
| `FrameTable.MnuFrameAllocator.ReleaseQuarantineOldest` | src/mem/frame.rs:185-196 | the ring gives up its oldest frame to the free list |
| `FrameTable.MnuFrameAllocator.QuarantinePushFrame` | src/mem/frame.rs:168-183 | the ring takes a frame last, after giving up its oldest when full |
| `FrameTable.MnuFrameAllocator.PushFreeList` | src/mem/frame.rs:156-162 | the link and cookie are written into the frame that becomes the head |
| `FrameTable.MnuFrameAllocator.IsUsable` | src/mem/frame.rs:198-204 | true exactly for addresses in a usable region |
| `FrameTable.MnuFrameAllocator.DeallocateFrame` | src/mem/frame.rs:206-237 | the checks in order, then the quarantine |
| `FrameTable.MnuFrameAllocator.TakeFreeFrame` | src/mem/frame.rs:363-402 | the head of the list with every check of its address, link and cookie |
| `FrameTable.MnuFrameAllocator.BumpFrame` | src/mem/frame.rs:404-437 | the region loop of the cursor |
| `FrameTable.MnuFrameAllocator.AllocateFrame` | src/mem/frame.rs:357-438 | quarantine, then free list, then cursor |
| `FrameTable.MnuFrameAllocator.ReserveContiguousRegion` | src/mem/frame.rs:261-296 | the region loop for a contiguous run, its overflow and its refusals |
| `SparseWalk.Next` | src/mem/sparse_page_walk.rs:18-53 | the walk that skips absent subtrees returns what a page-by-page scan returns, errors included, on any tree |
| `SparseWalk.HoleIsShared` | src/mem/sparse_page_walk.rs:36-43 | every page under an absent slot ends in the same hole |
| `SparseWalk.ScanSkipsHole` | src/mem/sparse_page_walk.rs:36-43 | jumping to the end of a hole passes over nothing |
| `SparseWalk.AfterIsNext` | src/mem/sparse_page_walk.rs:40-43 | the address grows at every skip, stays page-aligned, and skips only the hole |
| `SparseWalk.ScanFindsLeast` | src/mem/sparse_page_walk.rs:18-53 | the result is a mapped page of the range, and every page before it is a hole |
| `SparseWalk.ScanFindsNothingIff` | src/mem/sparse_page_walk.rs:18-53 | nothing is returned exactly when every page of the range is a hole |
| `MappingUsage.Bytes` | src/mem/mapping_usage.rs:13-53 | usage is 4096 times the number of distinct pages reserved or mapped, with at most one query per reservation, per leaf outside them, and one more |
| `MappingUsage.SumReservations` | src/mem/mapping_usage.rs:20-35 | the sum is exact when the regions are aligned and pairwise disjoint, and refused exactly otherwise |
| `MappingUsage.Advance` | src/mem/mapping_usage.rs:37-51 | one answer jumps the reservation that holds the leaf, or counts the leaf |
| `MappingUsage.JumpStep` | src/mem/mapping_usage.rs:41-47 | jumping a reservation counts nothing new and uses that reservation up |
| `MappingUsage.LeafStep` | src/mem/mapping_usage.rs:48-51 | a leaf outside every reservation is counted once |
| `MappingUsage.TableUsage` | src/mem/mapping_usage.rs:13-53 | the same usage with the sparse walk of a readable page table as the query |
| `MappingUsage.WalkFindsLeastLeaf` | src/mem/sparse_page_walk.rs:18-53 | from any cursor the walk of a readable table answers with its least leaf |
| `RootLifetime.DestroyedOnceNeverPinned` | src/mem/root_lifetime.rs:18-85 | over every careful run each use of an address is destroyed at most once, every destruction meets the use it was meant for, and none a pinned root |
| `RootLifetime.NothingLeaks` | src/mem/root_lifetime.rs:67-85 | when no owner and no pin is left, every root that ever existed was destroyed, by exactly one call |
| `RootLifetime.AcquisitionIsHarmlessIff` | src/mem/root_lifetime.rs:34-65 | an acquisition is harmless in every continuation exactly when its search meets no registration that died since its pruning |
| `RootLifetime.DropInTheWindowGoesWrong` | src/mem/root_lifetime.rs:41-47 | a concrete run on which a pinned root is destroyed: the last pin drops between pruning and search |
| `RootLifetime.ReuseIsDestroyedAstray` | src/mem/root_lifetime.rs:18-25 | the same run continued after the address is used again: the old root is destroyed a second time, in place of the new one |
| `RootLifetime.CarelessAcquisitionGoesWrong` | src/mem/root_lifetime.rs:67-85 | from any such state, giving the table up destroys it under the new pin |
| `RootLifetime.UnpublishedRootDefers` | src/mem/detached_roots.rs:80-87 | dropping an unpublished root leaves its table until its own pin is gone |
| `RootLifetime.RunKeeps` | src/mem/root_lifetime.rs:18-85 | every careful run of pins, clones, drops, retirements, publications and address reuse keeps one duty to destroy per root |
| `RootLifetime.RetireKeeps` | src/mem/paging.rs:2352-2363 | giving a table up hands its destruction to the pins and destroys nothing, or ends this use of the address by its only destruction when there are none |
| `RootLifetime.DropKeeps` | src/mem/root_lifetime.rs:18-25 | the last drop of a retired state ends its use of the address by the only destruction; any other drop destroys nothing |
| `RootLifetime.DropRootKeeps` | src/mem/detached_roots.rs:80-87 | a dropped root, published or not, keeps the duty in one place |
| `RootRegistry.Registry.Prune` | src/mem/root_lifetime.rs:42-42 | the loop forgets exactly the dead registrations, in order |
| `RootRegistry.Registry.Upgrade` | src/mem/root_lifetime.rs:43-47 | the first registration of the table, if it is alive |
| `RootRegistry.Registry.PinWith` | src/mem/root_lifetime.rs:34-65 | a pin on the registered state or on a new one; refused exactly for a bad address, a retired root, or an unregistered one without memory |
| `RootRegistry.Registry.RetireTable` | src/mem/root_lifetime.rs:70-85 | deferral exactly when the first registration is alive |
| `StreamRuns.FirstInFirstOut` | src/syscall/fs.rs:189-251 | after any interleaving of readers and writers, delivered bytes followed by the buffer are the accepted bytes in order, within the capacity |
| `StreamRuns.CompleteWritesAreWhole` | src/syscall/fs.rs:339-404 | a complete write is accepted as one contiguous piece or not at all |
| `StreamRuns.NoSleeperIsForgotten` | src/syscall/fs.rs:189-251 | a sleeping call with no wake-up on its way is registered and really cannot proceed |
| `StreamRuns.ChangesWakeEverybody` | src/syscall/fs.rs:69-96 | every change of data or endpoint counts empties the waiter list and wakes everybody else in the same section |
| `StreamRuns.RunKeeps` | src/syscall/fs.rs:189-404 | every interleaving keeps conservation, whole complete writes and the claim about sleepers |
| `ByteStream.StreamObject.constructor` | src/syscall/fs.rs:53-67 | an empty stream with one reader and one writer |
| `ByteStream.StreamObject.Drain` | src/syscall/fs.rs:225-240 | a read takes the oldest bytes, at most what it prepared for, and wakes the others |
| `ByteStream.StreamObject.Append` | src/syscall/fs.rs:366-386 | a write appends what fits, all or nothing when complete, and wakes the others; nothing without readers |
| `ByteStream.StreamObject.CloseEndpoint` | src/syscall/fs.rs:69-90 | one endpoint fewer, and everybody woken |
| `ByteStream.StreamObject.Register` | src/syscall/fs.rs:117-135 | a thread is registered once |
| `ByteStream.StreamObject.RemoveWaiter` | src/syscall/fs.rs:137-142 | every registration of the thread goes, the others stay in order |
| `ByteStream.StreamObject.WakeAll` | src/syscall/fs.rs:92-96 | the waiter list is taken and each member woken once, in order |

## Left out

- Objects backed by files other than providers, memory-mapped cache frames, `mark_page_dirty` and `invalidate` of the page cache: a mapped frame changes without any call, so agreement is not claimed for it, and `invalidate` has no caller in the repository.
- FrameTable.MnuFrameAllocator.IsUsable: adds region start and length without wrap-around, because the memory map of a machine ends below two to the 64th.
- PageCache.StagedStaysDirty: counts versions without wrap-around at two to the 64th staged writes during one flush.
- PageCache.CarefulRunsAgree: compares epochs without wrap-around; `GateRuns.SnapshotMatchesIff` says when the 64-bit generation repeats.
- AddressSpaces.AddressSpaces.CloneUserPageTable: models the leaves of a table as a map from space and page, so intermediate tables, huge pages and kernel entries are not part of it.
- Residency accounting, audit records and performance counters: they do not change what is proved here.
- Target capture (`src/mem/mapping_targets.rs`): its ranges are parameters of a transaction; only the containment test is modelled.
- Gate registry (`Registry` in `src/mem/object_io.rs`): a lookup of weak entries that would add only an easy member.
- `overlay_provider_range` and the byte reads of `vm_object.rs`: copies of resident bytes without effect on the cache.
- Capability checks of the stream calls, the table of pipe slots and user-memory faults: a fault is a failing step.
- CPU setup, interrupt delivery and the IPI send loop: sending is a step that may fail.
- Kernel heap, ELF loading, capability sets, DMA and device mappings: outside the memory protocols modelled here.
