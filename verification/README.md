# A verified model of DASim's memory manager

DASim simulates disaggregated memory on one machine. A manager process serves memory regions to
client processes: the *demo buffer manager* pages them between a fixed pool of RAM frames, a
shared swap file and per-region persistent files, and the *client manager* handles the clients'
calls and page faults. This project models both in Dafny, together with the journal write buffer
and the quicksort of the demo programs, and proves what they promise. Check it with
`dafny verify dfyconfig.toml`.

## How it is laid out

Each component appears twice. Once as functions on values, with the theorems about them; once as
classes whose fields are updated in place by the loops and branches of the program, every method
proved equal to its function.

| file | holds |
|---|---|
| `Common` | duplicate-free lists and the counting facts conservation rests on |
| `PagerState`, `PagerOps` | the pager's state, what clients see through it, its invariants, eviction |
| `PagerFaults`, `PagerAccess` | page faults, dirty bits, stores, persist |
| `PagerRegions`, `PagerFree` | allocating, reopening and freeing regions |
| `PagerRuns`, `PagerGuarantees`, `Fifo` | whole runs: flat memory, conservation, capacity, restart, eviction order |
| `BufferManager` | the buffer manager as a class |
| `ManagerState`, `AddressIndex`, `Clients`, `Survival` | the client manager's tables, fault lookup, map counts, what calls leave alone |
| `FaultProtocol`, `ProtocolSafety`, `Interleavings`, `PageTracking` | faults and persists as steps, interleaved with clients; dirty tracking, of all pages and page by page |
| `ProtocolSteps`, `ProtocolContents`, `ProtocolProgress`, `ProtocolRestart` | whole requests as steps, last stores, progress of accesses, restart |
| `Witnesses` | concrete runs from a new manager for promises that do not hold |
| `ClientManager` | the client manager and a client as classes |
| `Journal`, `DemoFile` | the journal write buffer, on values and as a class |
| `Quicksort` | the in-place sort |

A page is an opaque value; the swap file and the persistent files map page indices to such values.
What the kernel answers (addresses, segments, failures to make or remove one) is a parameter of
the calls. The kernel's side of a fault is a protection per mapped page (read-only or writable), a
set of blocked segments, and the set of pages some client holds a page-table entry for.

## Where the code and its intent part

The model follows the code. Each point below names the theorem that says exactly when the promise
holds, or what follows when it does not, and a concrete case where there is one that fails.

- A read fault handled for a page that is already resident overwrites the page's dirty bit with
  "clean" (damanager/src/demo_buffer_manager.cc:415). `LateReadRun` is a run of the buffer manager and
  `ForgettingRun` an interleaving of the whole protocol in which stores are unsaved when it happens;
  in `EarlyReadRun` it comes before the page's first store, which is lost later.
  What this breaks, and exactly when:
  - Dirty bits. Of all pages: `UnfixSoundIff` for one call, `RunSoundIff` for a run, `TracksIff` for an
    interleaving, where write-protection is modelled too. Page by page: `StepPageIff`, `RunPageIff` and
    `PageTrackedIff`. A page is tracked if and only if no step forgets that page, whatever is forgotten
    of others.
  - What clients see. The stores are lost when the page is evicted, as the write-back is skipped
    (damanager/src/demo_buffer_manager.cc:391). `RunTransparentIff` for a run; page by page over
    interleavings, `SeenIff`: the last store is seen if and only if the page is never evicted while
    marked clean and different from its file. `AnonymousSeen`: anonymous pages always show it.
  - What persist saves. It skips the page as clean (damanager/src/demo_buffer_manager.cc:568).
    `PersistDurableIff` and `PersistCompletes` say exactly which pages are saved; `PersistSkippedRun` is
    an accepted request that saves nothing.
  - What a restart shows. `RestartIff` for the buffer manager, `RestartShowsIff` page by page.
  The theorems about frames, slots, eviction, eviction order, capacity, map counts, handled requests as
  steps, and progress of accesses hold with this step, too.
- The persist loop ends at the page count, not at the end of the range
  (damanager/src/demo_buffer_manager.cc:559). `PersistDurableIff` says when the range is durable
  all the same, `PersistNothing` when nothing is saved; `PersistMissedRun` is such a run.
- An admitted anonymous request that finds no address keeps its pages booked
  (damanager/src/demo_buffer_manager.cc:253-262). `CapacityConserved` accounts for them;
  `CapacityLostRun` shows a request refused with no region alive.
- A client that maps at an address it already uses loses the old entry but not its count
  (damanager/src/client.cc:96, damanager/src/client.cc:120). `RunExactIff` says counts are exact if
  and only if this never happens; `SurplusStays` that such a region is never freed;
  `OverwriteRun` is such a run.
- The fault lookup does not check the region's size (damanager/src/client_manager.cc:218-230).
  `LookupPastEnd` says for which addresses it answers past the end of a region. Such a fault arrives
  when its region is freed before it is handled: `PastEndRun`. The program then reads beyond the page
  table of another region. The interleaving theorems therefore also leave out faults that have
  outlived their region, unless their address is below all regions or in a new one.
- The first of the two range checks of persist can be passed by a sum that wraps
  (damanager/src/client_manager.cc:481). `WrappingSumPasses` gives such a sum;
  `PersistCheckExact` shows that both checks together are exact.
- Persist blocks faults on the region's id where the segment is meant
  (damanager/src/client_manager.cc:489). `PersistCompletes` and `NextKeeps` show that the
  write-protection alone keeps dirty tracking sound.

## Model

| member | source | states |
|---|---|---|
| BufferManager.DemoBufferManager.constructor | damanager/src/demo_buffer_manager.cc:152-200 | a new manager has all frames and slots free, one page of capacity held back, and shows no region |
| BufferManager.DemoBufferManager.SwapInPage | damanager/src/demo_buffer_manager.cc:309-333 | the temporary page gets the page's contents, and an anonymous page's slot is free at once |
| BufferManager.DemoBufferManager.FindSwappablePage | damanager/src/demo_buffer_manager.cc:335-362 | the scan without an end test stays inside the used list and returns the first swappable frame and its slot |
| BufferManager.DemoBufferManager.SwapOutPage | damanager/src/demo_buffer_manager.cc:376-400 | the victim leaves the used list, its entry becomes swapped, and it is written unless it is a clean persistent page |
| BufferManager.DemoBufferManager.Unfix | damanager/src/demo_buffer_manager.cc:402-468 | the new state is the fault function's, and the reply names the page's range, whether it was mapped and whether to protect it |
| BufferManager.DemoBufferManager.BringIn | damanager/src/demo_buffer_manager.cc:424-462 | swap-in, frame search and fill make up the fault stages, and the page is dirty for a write or a first touch |
| BufferManager.DemoBufferManager.GetFrame | damanager/src/demo_buffer_manager.cc:430-440 | the first free frame, or else the victim's |
| BufferManager.DemoBufferManager.FillFrame | damanager/src/demo_buffer_manager.cc:441-462 | the frame is entered at the tail of the used list with the copied or filled contents |
| BufferManager.DemoBufferManager.MarkDirty | damanager/src/demo_buffer_manager.cc:470-485 | a resident page becomes dirty; the reply says whether to unprotect |
| BufferManager.DemoBufferManager.InitFile | damanager/src/demo_buffer_manager.cc:20-35 | every page of the new file holds the fill |
| BufferManager.DemoBufferManager.Allocate | damanager/src/demo_buffer_manager.cc:221-268 | all error paths and both kinds of region, including what a failed reservation leaves behind |
| BufferManager.DemoBufferManager.Free | damanager/src/demo_buffer_manager.cc:270-307 | all frames and slots of an unanchored region come back, its file or its capacity claim goes, an anchored or unknown one is left alone |
| BufferManager.DemoBufferManager.ReleasePages | damanager/src/demo_buffer_manager.cc:279-294 | the loop returns each frame and each slot once, in page order |
| BufferManager.DemoBufferManager.ReleaseOne | damanager/src/demo_buffer_manager.cc:280-293 | a resident page's frame goes to the free list and is written if persistent and dirty; a swapped anonymous page's slot is freed |
| BufferManager.DemoBufferManager.Anchor | damanager/src/demo_buffer_manager.cc:487-499 | only persistent regions can be anchored |
| BufferManager.DemoBufferManager.Unanchor | damanager/src/demo_buffer_manager.cc:500-508 | clears the mark of a known region |
| BufferManager.DemoBufferManager.GetAnchoredRegion | damanager/src/demo_buffer_manager.cc:509-534 | returns any known region, else opens one from its file as anchored |
| BufferManager.DemoBufferManager.CanPersistRange | damanager/src/demo_buffer_manager.cc:536-549 | the subtraction-form range check with its error codes |
| BufferManager.DemoBufferManager.Persist | damanager/src/demo_buffer_manager.cc:551-578 | the loop writes and cleans the dirty pages from the first page of the range up to the page count |
| BufferManager.DemoBufferManager.PersistOne | damanager/src/demo_buffer_manager.cc:560-576 | a resident dirty page is written and becomes clean, any other is skipped |
| BufferManager.DemoBufferManager.Shutdown | damanager/src/demo_buffer_manager.cc:202-212 | from a sound state every persistent page on file is what clients saw |
| PagerFaults.SwappableExists | damanager/src/demo_buffer_manager.cc:198-199 | with no free frame, the page held back at start guarantees a persistent resident page or a free slot |
| PagerFaults.SwapOutContents | damanager/src/demo_buffer_manager.cc:376-400 | eviction changes no other page, and the victim exactly when it is clean and differs from its file |
| PagerFaults.FaultInKeeps | damanager/src/demo_buffer_manager.cc:424-462 | a fault keeps frames, slots, frame table and capacity in order, even when it reuses the slot it just freed |
| PagerFaults.FaultInContents | damanager/src/demo_buffer_manager.cc:424-462 | a fault changes no page of any region but a clean victim that differs from its file |
| PagerAccess.UnfixTransparent | damanager/src/demo_buffer_manager.cc:402-468 | from a sound state a call changes no page of any region and leaves the page resident |
| PagerAccess.UnfixSoundIff | damanager/src/demo_buffer_manager.cc:412-422 | the dirty bits stay sound if and only if the call is not a read fault on a resident persistent page with unsaved stores |
| PagerAccess.ReplyCovers | damanager/src/demo_buffer_manager.cc:406-421 | the masked page range contains the faulting byte and lies inside the region |
| PagerAccess.ProtectsClean | damanager/src/demo_buffer_manager.cc:464-467 | a freshly mapped page is to be protected exactly when it is clean |
| PagerAccess.MarkDirtyTransparent | damanager/src/demo_buffer_manager.cc:470-485 | marking dirty changes no contents and keeps the bits sound |
| PagerAccess.StoreHits | damanager/src/demo_buffer_manager.cc:450-462 | a client store reaches that page alone; it keeps the bits sound exactly for dirty or anonymous pages or unchanged contents |
| PagerAccess.PersistDurableIff | damanager/src/demo_buffer_manager.cc:551-578 | from any valid state: contents and everything outside the range are kept; a page the loop visits is saved if and only if it is not marked clean while different from its file; the range is durable if and only if that holds of all pages visited and the pages missed already were on file, and clean if and only if the pages missed already were; offset zero misses none |
| PagerAccess.PersistDurableSound | damanager/src/demo_buffer_manager.cc:551-578 | where all dirty bits are sound they stay so, and the range is durable if and only if the pages missed already were on file |
| PagerRegions.AllocateKeeps | damanager/src/demo_buffer_manager.cc:221-268 | allocation keeps the accounts; pages are lost exactly when an admitted anonymous request gets no address |
| PagerRegions.AllocateContents | damanager/src/demo_buffer_manager.cc:221-268 | a new region shows its fill on every page and no other page changes |
| PagerRegions.GetAnchoredKeeps | damanager/src/demo_buffer_manager.cc:509-534 | a region reopened from a non-empty file shows it page for page, and no other page changes |
| PagerFree.FreeKeeps | damanager/src/demo_buffer_manager.cc:270-307 | no frame or slot of a freed region is lost or returned twice, and its capacity is on offer again |
| PagerFree.FreeContents | damanager/src/demo_buffer_manager.cc:270-307 | freeing a region touches no page of another |
| PagerRuns.StepKeeps | damanager/include/damanager/demo_buffer_manager.h:86-97 | every operation keeps the invariant over all of the manager's fields |
| PagerRuns.InitShows | damanager/src/demo_buffer_manager.cc:191-199 | a new manager meets the invariant, has no page unaccounted for and shows no region |
| PagerRuns.RunKeeps | damanager/include/damanager/demo_buffer_manager.h:86-97 | every run keeps the invariant, late reads included |
| PagerRuns.StepSoundIff | damanager/src/demo_buffer_manager.cc:391-422 | every operation keeps the dirty bits sound if and only if it is neither a read fault on a resident persistent page with unsaved stores nor a store that changes a persistent page marked clean |
| PagerRuns.RunSoundIff | damanager/src/demo_buffer_manager.cc:391-422 | a run keeps the dirty bits sound in all its states if and only if no step is one of those two |
| PagerRuns.StepSimulates | damanager/src/demo_buffer_manager.cc:221-578 | from a state with sound dirty bits one operation of the pager is one operation of a memory of flat arrays |
| PagerRuns.StepShowsIff | damanager/src/demo_buffer_manager.cc:376-400 | from any valid state one operation of the pager is one operation of a memory of flat arrays if and only if it does not evict a page that is marked clean and differs from its file |
| PagerRuns.RunTransparentIff | damanager/src/demo_buffer_manager.cc:376-400 | clients see the flat memory in all states of a run if and only if no fault of the run evicts such a page |
| PagerRuns.RunTransparent | damanager/src/demo_buffer_manager.cc:221-578 | in particular, over every run without the two steps of StepSoundIff clients see the flat memory, page for page |
| PagerGuarantees.FramesPartition | damanager/src/demo_buffer_manager.cc:191-193 | free and used frames partition all frames without duplicates |
| PagerGuarantees.SlotsPartition | damanager/src/demo_buffer_manager.cc:195-196 | every slot is free or held by exactly one swapped anonymous page |
| PagerGuarantees.FrameTableInverse | damanager/include/damanager/demo_buffer_manager.h:69-75 | the frame table is the exact inverse of the present entries, so a used page's region is always found |
| PagerGuarantees.EvictionNeverFails | damanager/src/demo_buffer_manager.cc:335-362 | in every reachable state a fault that needs a victim finds one before the end of the list, for any kind of page |
| PagerGuarantees.CapacityConserved | damanager/src/demo_buffer_manager.cc:253-257 | over every run, pages on offer, live anonymous pages and lost pages add up to RAM plus swap less one |
| PagerGuarantees.AdmissionExact | damanager/src/demo_buffer_manager.cc:253-257 | in every reachable state an anonymous region is granted if and only if it fits beside live and lost pages |
| PagerGuarantees.ShutdownFiles | damanager/src/demo_buffer_manager.cc:202-212 | shutdown leaves visible contents on file for dirty persistent pages and the old contents for the others |
| PagerGuarantees.RestartIff | damanager/src/demo_buffer_manager.cc:202-212 | shutdown saves every persistent page if and only if the dirty bits are sound |
| PagerGuarantees.FileMatchesVisible | damanager/src/demo_buffer_manager.cc:202-212 | page by page, shutdown saves a persistent page if and only if it is not marked clean while different from its file |
| PagerGuarantees.RestartRoundTrip | damanager/src/demo_buffer_manager.cc:87-96 | after any run without those two steps, shutdown, restart and reopening give the flat memory clients last saw; for interleavings see RestartShowsLastStores |
| PagerGuarantees.LateReadLoses | damanager/src/demo_buffer_manager.cc:412-422 | after a late read, whatever the other pages' bits, the stores are lost at the page's next eviction and at shutdown, and no accepted persist saves them |
| Witnesses.LateReadRun | damanager/src/demo_buffer_manager.cc:415 | a state reachable from a new manager in which a late read happens and the next fault evicts its page |
| Witnesses.EarlyReadRun | damanager/src/demo_buffer_manager.cc:415 | a reachable state in which a read fault leaves the bits sound and a dirty page clean, so that the next store to it is not tracked |
| Witnesses.PersistMissedRun | damanager/src/demo_buffer_manager.cc:559 | a run after which an accepted persist of a page with a store does not save it |
| Witnesses.PersistSkippedRun | damanager/src/demo_buffer_manager.cc:568 | a reachable state in which a late read makes an accepted persist from offset zero skip the page that holds a store |
| PagerGuarantees.PersistNothing | damanager/src/demo_buffer_manager.cc:559 | persist from an offset at or beyond its size changes nothing |
| Fifo.VictimOldest | damanager/src/demo_buffer_manager.cc:335-362 | the victim is the oldest resident page of its kind, also when anonymous pages are skipped for lack of swap |
| Fifo.RunFifo | damanager/src/demo_buffer_manager.cc:385-441 | over every run the used list is the queue replayed from fault-ins, evictions and frees |
| Fifo.NeverReversed | damanager/src/demo_buffer_manager.cc:335-362 | two pages of the same kind are never evicted in the reverse of their fault-in order |
| ClientManager.RegionManager.AddRegion | damanager/src/client_manager.cc:287-315 | a segment enters both tables with one map; without a segment the region is freed again, and the kernel forgets its pages |
| ClientManager.RegionManager.Allocate | damanager/src/client_manager.cc:349-374 | known and anchored regions are refused, others allocated and entered |
| ClientManager.RegionManager.Map | damanager/src/client_manager.cc:414-439 | one more map for a known region, else the anchored region is entered |
| ClientManager.RegionManager.Unmap | damanager/src/client_manager.cc:440-468 | one map fewer; at zero the segment, both table entries, the region and its mapped pages go |
| ClientManager.RegionManager.Anchor | damanager/src/client_manager.cc:376-379 | passes the buffer manager's answer on |
| ClientManager.RegionManager.Unanchor | damanager/src/client_manager.cc:380-390 | an unanchored region that no client maps is freed, with its mapped pages |
| ClientManager.RegionManager.GetSize | damanager/src/client_manager.cc:392-413 | the size of a known or an anchored region |
| ClientManager.RegionManager.CanPersistRange | damanager/src/client_manager.cc:474-487 | the wrapping check followed by the buffer manager's |
| ClientManager.RegionManager.Persist | damanager/src/client_manager.cc:470-507 | an accepted request is the handled persist of the protocol: the range read-only, the pages copied, everything else as it was; a refused one changes nothing |
| ClientManager.RegionManager.ProtectRange | damanager/src/client_manager.cc:496-500 | the loop makes the mapped pages of the range read-only, and every other page keeps its protection |
| ClientManager.RegionManager.HandleUserfault | damanager/src/client_manager.cc:187-231 | the region is found by stepping back in the address index; an address below all regions changes nothing; the result says exactly whether what the program does is defined: the address lies in a region or below all of them |
| ClientManager.RegionManager.ServeFault | damanager/src/client_manager.cc:233-285 | block, unfix or mark dirty, protect or unprotect, unblock amount to one handled fault of the protocol |
| ClientManager.Client.CallAlloc | damanager/src/client.cc:89-100 | an entry is stored exactly on success, and the call is a step of the protocol, whatever the other clients hold |
| ClientManager.Client.CallMap | damanager/src/client.cc:113-124 | an entry is stored exactly on success, and the call is a step of the protocol |
| ClientManager.Client.CallUnmap | damanager/src/client.cc:125-134 | the entry goes even if the unmap reports an error, and the call is a step of the protocol |
| ClientManager.Client.CallAnchor | damanager/src/client.cc:101-104 | the call is a step of the protocol |
| ClientManager.Client.CallUnanchor | damanager/src/client.cc:105-108 | the call is a step of the protocol |
| ClientManager.Client.CallGetSize | damanager/src/client.cc:109-112 | the size of a known or an anchored region, and the call is a step of the protocol |
| ClientManager.Client.CallPersist | damanager/src/client.cc:135-142 | the region is named by the client's entry, an accepted call is the handled persist of the protocol, and later calls can follow |
| ClientManager.Client.Disconnect | damanager/src/client.cc:40-48 | the table is drained in address order, every region unmapped once per entry, and the whole is a step of the protocol |
| ManagerState.AllocateGood | damanager/src/client_manager.cc:349-374 | both managers' tables and the address index still agree |
| ManagerState.MapGood | damanager/src/client_manager.cc:414-439 | both managers' tables and the address index still agree |
| ManagerState.UnmapGood | damanager/src/client_manager.cc:440-468 | both managers' tables and the address index still agree |
| ManagerState.AnchorGood | damanager/src/client_manager.cc:376-379 | both managers' tables and the address index still agree |
| ManagerState.SizeGood | damanager/src/client_manager.cc:392-413 | both managers' tables and the address index still agree, also when asking opens an anchored region |
| ManagerState.UnanchorGood | damanager/src/client_manager.cc:380-390 | both managers' tables and the address index still agree |
| ManagerState.OnlyAnchoredExposed | damanager/src/client_manager.cc:357-363 | asked for a region unknown to the client manager, the buffer manager reports only anchored persistent ones |
| AddressIndex.InsideUnique | damanager/src/client_manager.cc:303-309 | at most one live region holds an address |
| AddressIndex.LookupFinds | damanager/src/client_manager.cc:209-230 | the ordered lookup returns the region a linear scan would find, with an offset inside it, and only then |
| AddressIndex.LookupPastEnd | damanager/src/client_manager.cc:209-230 | it answers past a region's end exactly for addresses in no region and above the start of one |
| AddressIndex.FaultRange | damanager/src/client_manager.cc:230-242 | the range reported for a fault holds the address and lies inside its region |
| AddressIndex.PersistCheckExact | damanager/src/client_manager.cc:480-487 | for all 64-bit offsets and sizes both checks accept exactly the non-empty page-aligned ranges inside a persistent region |
| AddressIndex.WrappingSumPasses | damanager/src/client_manager.cc:481 | the first check alone accepts a range beyond the region |
| AddressIndex.ProtectLoopInside | damanager/src/client_manager.cc:496-500 | every page the protect loop touches lies inside the region and below the address limit |
| Clients.DoGood | damanager/src/client.cc:54-87 | every call of every client keeps both managers' tables in agreement |
| Clients.UnmapCounts | damanager/src/client_manager.cc:447-468 | the count never underflows, and a region goes only when no client has an entry for it |
| Clients.DropCounts | damanager/src/client.cc:40-48 | the disconnect loop keeps all counts |
| Clients.DoCounts | damanager/src/client.cc:54-87 | each region's count stays at or above its entries over all clients, and its surplus grows exactly by overwritten entries |
| Clients.ExactIff | damanager/src/client.cc:89-134 | exact counts stay exact if and only if the call overwrites no entry |
| Clients.SurplusStays | damanager/src/client_manager.cc:447-452 | a region with an overwritten entry is never freed, whatever calls follow |
| Clients.RunExactIff | damanager/src/client.cc:89-134 | over every run of calls counts end exact if and only if no entry was ever overwritten |
| Clients.MappedStaysLive | damanager/src/client_manager.cc:447-468 | a region some client maps is live in both managers |
| Survival.DoCarries | damanager/src/client.cc:54-87 | no call but persist changes the place, contents or dirty bit of a page of a region that stays |
| ProtocolSafety.WorkRewritesIff | damanager/src/client_manager.cc:239-252 | handling a fault on a resident page keeps the tracking sound if and only if it is not a read fault on a dirty persistent page that has or can take stores |
| ProtocolSafety.StorePermitted | damanager/src/client_manager.cc:247-252 | the kernel admits a client store only to pages that are dirty or anonymous |
| ProtocolSafety.NextKeeps | damanager/src/client_manager.cc:233-284 | every step of faults, persists, calls and clients except that read fault keeps the whole invariant |
| ProtocolSafety.CallKeeps | damanager/src/client.cc:54-87 | a client call keeps the invariant, whatever regions it adds or removes |
| ProtocolSafety.DirtyTrackingSound | damanager/src/client_manager.cc:233-284 | in every state of every interleaving without that read fault, a clean resident persistent page equals its file and is read-only, or still blocked and held by no client |
| Interleavings.NextSteady | damanager/src/client_manager.cc:187-285 | every step, that read fault included, keeps tables, counts, the mapping of exactly the resident pages and the order of the protocol |
| Interleavings.TracksIff | damanager/src/client_manager.cc:239-252 | over every interleaving dirty tracking is sound in all states if and only if no step is that read fault |
| Interleavings.TraceIff | damanager/src/client_manager.cc:239-252 | the interleavings of DirtyTrackingSound are exactly those without that read fault |
| PageTracking.UnfixPageIff | damanager/src/demo_buffer_manager.cc:402-468 | a call loses a page's bit if and only if it is a late read of that page |
| PageTracking.StepPageIff | damanager/src/demo_buffer_manager.cc:391-422 | one operation keeps a page's bit sound if and only if it is neither a late read of that page nor a store to it that changes it while marked clean |
| PageTracking.RunPageIff | damanager/src/demo_buffer_manager.cc:391-422 | a run keeps a page's bit sound in all its states if and only if no step is one of those two on that page |
| PageTracking.NextPageIff | damanager/src/client_manager.cc:187-285 | one step of the protocol keeps track of a page if and only if it does not forget that page |
| PageTracking.PageTrackedIff | damanager/src/client_manager.cc:187-285 | over every interleaving a page is tracked in all states if and only if no step forgets that page |
| PageTracking.InvPages | damanager/src/client_manager.cc:233-284 | the whole invariant is that of every interleaving plus the tracking of every page |
| PageTracking.NoneForgetsIff | damanager/src/client_manager.cc:239-252 | no step of an interleaving forgets if and only if no page is ever forgotten |
| PageTracking.PageTrackingSound | damanager/src/client_manager.cc:233-284 | what DirtyTrackingSound states of a page, in every interleaving that never forgets this page, whatever it forgets of others |
| PageTracking.PersistSavesTracked | damanager/src/client_manager.cc:489-504 | over every interleaving persist saves each page its loop covers that was tracked at the beginning and never forgotten |
| ProtocolSafety.PersistCompletes | damanager/src/client_manager.cc:489-504 | after the copy the pages the persist loop covers are clean and read-only, although faults were blocked on the wrong id; each is saved if and only if it was not marked clean while different from its file |
| ProtocolContents.SeenIsLastStore | damanager/src/client_manager.cc:187-285 | in particular, over every interleaving that never forgets it a page that is tracked at its beginning, of a region that stays, shows the last value any client stored |
| ProtocolContents.SeenIff | damanager/src/demo_buffer_manager.cc:391-397 | over every interleaving a page of a region that stays shows the last store in all states if and only if it is never evicted while marked clean and different from its file |
| ProtocolContents.AnonymousSeen | damanager/src/demo_buffer_manager.cc:391-397 | over every interleaving a page of an anonymous region that stays shows the last store |
| ProtocolSteps.HandledBySteps | damanager/src/client_manager.cc:187-285 | a fault, from reading it to waking the client, is the protocol's steps one after the other, and they lead to the handled world; they forget nothing unless the fault is that read fault |
| ProtocolSteps.PersistedBySteps | damanager/src/client_manager.cc:470-507 | an accepted persist request, with any number of pages to protect, is the protocol's steps one after the other |
| ProtocolProgress.HandledPage | damanager/src/client_manager.cc:239-275 | what one handled fault, fresh or stale, does to the page's protection |
| ProtocolProgress.HandledAccessIff | damanager/src/client_manager.cc:239-275 | handling a fault lets the access through if and only if the page is mapped, for a write-protect fault, or missing or already accessible, for any other |
| ProtocolProgress.NextLeaves | damanager/src/client_manager.cc:187-285 | a step leaves a page mapped if and only if it was, exactly unless it maps or evicts it or removes its region |
| ProtocolProgress.UnmovedKeeps | damanager/src/client_manager.cc:187-285 | over every interleaving without such a step a page is mapped if and only if it was |
| ProtocolProgress.UndisturbedKeeps | damanager/src/client_manager.cc:187-285 | over every interleaving that does not map, evict or protect a page or remove its region, it stays mapped and protected as it was |
| ProtocolProgress.FaultProgress | damanager/src/client_manager.cc:254-284 | after a fault, fresh or stale, is handled, a read can go through at once, and a write exactly under the condition of HandledAccessIff; otherwise, after any interleaving, the second fault the write raises lets it through if the page is not mapped or evicted before it is handled, whatever else is |
| ProtocolProgress.RaisedServes | damanager/src/client_manager.cc:254-284 | a fault lets the access that raised it through, if between raising and handling the page is not mapped or evicted nor its region removed; persists of the page and other faults on it may come in between |
| ProtocolProgress.AccessStays | damanager/src/client_manager.cc:280-284 | an access that can go through still can after any interleaving that does not disturb its page |
| ProtocolProgress.AccessProgress | damanager/src/client_manager.cc:254-284 | the same in every state reached from a new manager, over any interleaving, that read fault included, in which the lock is free |
| ProtocolRestart.DisconnectsShutDown | damanager/src/client_manager.cc:327-335 | the clients can be cut off in any order, and an anchored region keeps every page |
| ProtocolRestart.RestartShowsIff | damanager/src/demo_buffer_manager.cc:202-212 | in any state of any interleaving with the lock free, after cutting off all clients, write-back and restart, an anchored region shows what clients last saw, page by page, if and only if the page was not marked clean while different from its file |
| ProtocolRestart.RestartShowsLastStores | damanager/src/demo_buffer_manager.cc:202-212 | in particular, after any interleaving an anchored region shows the last store on each page that was tracked at its beginning and never forgotten |
| Witnesses.CapacityLostRun | damanager/src/demo_buffer_manager.cc:253-262 | a request without an address leaves no region, and the same request is then refused for lack of pages |
| Witnesses.ForgettingRun | damanager/src/demo_buffer_manager.cc:415 | an interleaving of the protocol from a new manager reaches that read fault, and handling it makes dirty tracking unsound |
| Witnesses.PastEndRun | damanager/src/client_manager.cc:218-230 | a reachable state in which a fault on a region can be raised; once that region is unmapped the fault's address is looked up as the offset of another region's end |
| Witnesses.OverwriteRun | damanager/src/client.cc:113-124 | mapping twice at one address and unmapping it leaves a region counted that no client has an entry for |
| Journal.WriteAdjacent | demo/include/demovfs.h:162-182 | two adjacent direct writes equal one |
| Journal.WriteRefines | demo/include/demovfs.h:255-298 | a buffered write is a direct write to disk overlaid with buffer |
| Journal.RunRefines | demo/include/demovfs.h:189-353 | for every buffer size and over every run all answers and contents equal those of an unbuffered file, and sync, read, size and close leave them on disk |
| Journal.Coalesced | demo/include/demovfs.h:95-110 | for every buffer size, sequential bytes, however cut, make ceil(n / buffer size) aligned direct writes, all full but the last |
| DemoFile.File.DirectWrite | demo/include/demovfs.h:162-182 | a write at an offset, zero-filling a hole |
| DemoFile.File.FlushBuffer | demo/include/demovfs.h:189-197 | the buffered bytes reach the file in one write and the buffer is empty |
| DemoFile.File.Write | demo/include/demovfs.h:255-298 | disk overlaid with buffer changes as by a direct write, for journals and other files |
| DemoFile.File.CopyRound | demo/include/demovfs.h:264-291 | one round flushes when full or not adjacent and copies what fits |
| DemoFile.File.constructor | demo/include/demovfs.h:431-453 | a file starts with nothing buffered, and only a journal has a buffer, of any positive size |
| DemoFile.File.Read | demo/include/demovfs.h:215-250 | the unbuffered answer, short reads zero-filled and reported |
| DemoFile.File.FileSize | demo/include/demovfs.h:332-353 | the unbuffered size |
| DemoFile.File.Sync | demo/include/demovfs.h:315-327 | the disk holds everything written |
| Quicksort.Partition | demo/src/demo_quicksort.cc:11-29 | elements up to the returned index are at most the pivot there, later ones above it, the rest of the array is untouched and the whole a permutation |
| Quicksort.SortRange | demo/src/demo_quicksort.cc:31-39 | sorts exactly the range, as a permutation, and terminates, on signed bounds that may be negative or crossed |
| Quicksort.Sort | demo/src/demo_quicksort.cc:41-44 | sorts every array of up to 2^63 elements, the empty one included, where the bound wraps to minus one |

## Left out

- HandleUserfault: changes nothing when the offset it works with lies past the end of the region found; what the program does then is undefined, as it indexes outside the page table.
- NextSteady: like all theorems about interleavings, leaves out faults handled at an address past the end of the region found, for the same reason.
- UnmapCounts: counts are unbounded when incremented; only the decrement wraps.
- Unfix: is taken as one step for clients; stores to the victim between its unmapping and its write-back are not interleaved.
- FaultProgress: does not bound how often a page can be mapped or evicted between raising a fault and handling it; each time the write faults once more.
- GetAnchoredRegion: an empty file is taken to find no address, as a reservation of no bytes fails.
- Persist: a copy interrupted by a failing write is not modelled.
- Write: file calls succeed; a failed flush drops the buffered bytes and is not modelled.
- Bytes of a page, partial reads and writes of the swap and persistent files, and the read loop that does not advance its buffer (damanager/src/demo_buffer_manager.cc:309-333): pages are transferred whole.
- The frame table is taken to have one entry per frame; the program only reserves room for it (damanager/src/demo_buffer_manager.cc:191).
- Failing `open` for reasons other than an existing file, failing `ftruncate` and `fstat`, and files whose size is not a whole number of pages.
- Internals of userfaultfd, XPMEM, mmap and madvise. A fresh mapping is taken to be writable, a continue request to change nothing on a mapped page, and a reserved range to be unused and aligned.
- Sockets, polling, signals, argument parsing, and a client reconnecting under the process id of one that is still being served (damanager/src/client_manager.cc:164-185).
- `fix`, `advise` and region properties other than persistency: they have no effect in the demo buffer manager.
- The region-backed file layer, open, delete, locking and truncation of the demo's virtual file system, the SQLite demos, benchmarks, kernel experiments and manual tests.
