# UOSC kernel core: a verified model

The kernel's working logic is in `reference-rs` (memory, IPC, capabilities,
the run queue) and `kernel-x86_64` (the scheduler bridge, context switching,
task stacks). This project models the four parts of it that carry state, and
proves what holds over all their runs:

* **Memory.** A buddy allocator over free lists by order, and per-process
  memory contexts that share it. The free blocks are always the maximal
  aligned blocks of the free pages, so their multisets depend on nothing but
  which pages are free; allocation is complete; blocks tile the arena.
* **IPC.** A single-producer single-consumer ring buffer, stepped one shared
  access at a time under every interleaving, and ports over it guarded by
  capabilities.
* **Capabilities.** Tokens, revocation and delegation, with confinement over
  whole histories.
* **Multitasking.** The run queue, the waiting times of its pick-and-charge
  loop, and the kernel's ticks, spawns, exits and switches down to the pushed
  and popped registers.

Run `dafny verify dfyconfig.toml` to check everything.

## How it is laid out

Each part has a functional description of the state and its operations, with
the theorems proved about that; and classes whose methods change fields in
place as the source does, each proved equal to the functional operation on
the old state (`View() == Spec(old(View()))`), so the theorems apply to them.
What the functional operations themselves come down to is stated separately, in
terms of the fields alone: `DecideIff`, `SendIff`, `AllocateExactly`,
`AllocateVirtualCorrect`, `TickExactly` and their like.

| part | functional description and theorems | in-place classes |
|---|---|---|
| memory | `Bits`, `BlockTree`, `BuddyAllocator`, `ProcessMemory` | `PhysicalMemory`, `ProcessContext` |
| IPC | `RingBuffers`, `Ports` | `RingBuffers.RingBuffer`, `Ports.PortTable` |
| capabilities | `Capability` | `Capability.CapabilityBroker` |
| multitasking | `RunQueues`, `Fairness`, `ContextSwitch`, `TaskStack`, `Kernel`, `KernelRuns` | `RunQueues.RunQueue`, `ContextSwitch.Processor`, `TaskStack.TaskStacks`, `Bridge.SchedulerBridge` |

## What the code does that one might not expect

* `allocate_virtual` keeps the pages it has mapped when it runs out of memory
  midway (memory.rs:293-296): they stay mapped above every region and no
  region covers them. `AllocateVirtualCorrect` says exactly what is mapped then:
  as many pages from the next address on as were free, and which frames that displaced.
* `handle_page_fault` maps over a page that is already mapped (memory.rs:342-344).
  The old frame stays allocated and is mapped nowhere: "displaced". Pages of
  regions are mapped when the region is made, so for a region that starts on a
  page boundary every satisfied fault displaces a frame
  (`AlignedFaultDisplaces`). The accounting law therefore reads: live frames
  are the mapped ones and the displaced ones.
* Allocating and deallocating again does not always restore the allocator. An
  empty region does not move `next_addr`, so the next one starts at the same
  address and `position` finds the empty one first. `EmptyRegionBreaksRoundTrip`
  is an instance; `RoundTripIff` says exactly when the round trip works.
* Adding a pid that is already queued with another key leaves the old key
  behind. `AddAgreesIff` says exactly when the indexes stay in agreement, and
  `ReAddingLeavesStaleKey` is an instance. The bridge never re-adds a pid.
* `on_timer_tick` picks before it charges the previous task, so the choice is
  made on runtimes one tick old, and the current task can be 1 ahead of the least.
* Some branches are never taken: the ring buffer's `ok_or(QueueEmpty)` after a
  take (`EveryScheduleIsFifo`: no `Missing` event), the fallbacks of
  `context_ptr` and `context_rsp` during a switch (`FallbacksUnreachable`), and
  the budget branch of `exit_current_task` (`HandbackIsFinal`).

## Assumptions of the multitasking part

* A tick, an exit and the installing of a task are atomic: interrupts are masked
  throughout each of them. A spawn takes its pid before that (scheduler_bridge.rs:362),
  so it is two steps, `ReservePid` and `InstallTask`, with anything in between.
* `Execute` stands for everything a context does between transitions,
  interrupt entry and exit included. It may set the registers and write memory
  as it likes, but keeps its stack pointer on its own stack, 8-aligned, with room
  for the seven words of a switch, and does not overwrite the seven words of
  another context's suspended frame. Nothing more is asked of it.
* Kernel statics (slots, run queue, counters) are not reachable through that memory.
* The boot flow's stack lies outside the region of the task stacks.
* A spawn happens only while pids below `BOOT_PID` remain; only a task exits.

## Model

| member | source | states |
|---|---|---|
| Bits.ShrInterval | reference-rs/src/memory.rs:106-110 | A page index shifted right by an order names the one aligned block of that order that the page is in |
| Bits.XorFlips | reference-rs/src/memory.rs:117-121 | XOR of an aligned offset with the block size reaches the other half of the enclosing block |
| Bits.Ilog2Brackets | reference-rs/src/memory.rs:104 | `ilog2` is the largest power of two that does not exceed the remainder |
| Bits.TrailingZerosOfShl | reference-rs/src/memory.rs:107-109 | A multiple of 2^k has at least k trailing zeros |
| Bits.TrailingZerosAre | reference-rs/src/memory.rs:108 | A number is an odd one shifted left by its trailing zeros |
| BlockTree.SplitTiles | reference-rs/src/memory.rs:145-153 | Replacing a block of a tiling by its two halves gives a tiling |
| BlockTree.MergeTiles | reference-rs/src/memory.rs:178-188 | Replacing two buddies of a tiling by their parent gives a tiling |
| BlockTree.TilesConserve | reference-rs/src/memory.rs:193-199 | The sizes of the blocks of a tiling add up to the size of the arena |
| BlockTree.EnclosingFreeBlock | reference-rs/src/memory.rs:171-191 | When no two free buddies are left apart, every wholly free aligned run lies inside a single free block |
| BlockTree.FreeIffMaximal | reference-rs/src/memory.rs:166-191 | A block is free exactly when it is a maximal aligned run of free pages, capped at the greatest order |
| BlockTree.FreeSetDetermined | reference-rs/src/memory.rs:166-191 | Two settled states with the same free pages have the same free blocks |
| BlockTree.FreeRunIffLargeBlock | reference-rs/src/memory.rs:134-143 | Some aligned run of an order is wholly free exactly when some free block of at least that order exists |
| BlockTree.SettledCount | reference-rs/src/memory.rs:100-115 | The number of blocks in an idle arena is a function of its size |
| BuddyAllocator.BuddyOfIsBuddy | reference-rs/src/memory.rs:117-121 | The byte address computed with XOR is the address of the block's sibling, relative to the arena's base |
| BuddyAllocator.SplitDownKeeps | reference-rs/src/memory.rs:144-153 | The splitting loop keeps tiling and full merging, with the split-off block of the target order counted as held, and hands out the last part of the source block |
| BuddyAllocator.SplitDownExactly | reference-rs/src/memory.rs:144-153 | What the splitting loop leaves in each list |
| BuddyAllocator.AllocateCorrect | reference-rs/src/memory.rs:127-164 | Allocation succeeds exactly when some aligned run of the size is wholly free; it hands out such a run; otherwise the error is the right one and nothing changed |
| BuddyAllocator.AllocateExactly | reference-rs/src/memory.rs:127-164 | Free lists are stacks: which block is handed out, where its other parts go, and that no other list changes |
| BuddyAllocator.CoalesceKeeps | reference-rs/src/memory.rs:178-189 | The merging loop ends with the block returned, the arena tiled and no two free buddies below the greatest order |
| BuddyAllocator.CoalesceExactly | reference-rs/src/memory.rs:178-189 | The merging loop takes one entry off each list it passes and pushes the merged block last |
| BuddyAllocator.DeallocateCorrect | reference-rs/src/memory.rs:171-191 | Deallocation succeeds exactly for addresses of live blocks, removes that one, keeps the invariant, and otherwise reports a double free and changes nothing |
| BuddyAllocator.DeallocateExactly | reference-rs/src/memory.rs:171-191 | The merged block is what the next allocation of its order hands out; no list outside the merge changes |
| BuddyAllocator.SeedStep | reference-rs/src/memory.rs:103-113 | The alignment clamp never lowers the order, the block fits in the remainder, and below the greatest order it is a left sibling |
| BuddyAllocator.SeedAppend | reference-rs/src/memory.rs:111-113 | Pushing a seeded block extends the tiling and creates no pair of free buddies |
| BuddyAllocator.FreeListsCanonical | reference-rs/src/memory.rs:100-191 | Between calls an address is in the free list of an order, once, exactly when its run is wholly free and its parent's is not |
| BuddyAllocator.FreeListsDetermined | reference-rs/src/memory.rs:100-191 | Equal free pages mean equal multisets at every order, whatever the histories |
| BuddyAllocator.PageHasOneOwner | reference-rs/src/memory.rs:127-191 | Every page of the arena is in exactly one free or live block, and no block reaches outside |
| BuddyAllocator.PagesConserved | reference-rs/src/memory.rs:193-199 | Free pages as counted and live pages add up to the arena |
| BuddyAllocator.ServeCorrect | reference-rs/src/memory.rs:157-191 | Every request, failing ones included, keeps the invariant |
| BuddyAllocator.RunRestoresFreeLists | reference-rs/src/memory.rs:157-191 | A run of requests that ends with the live blocks it began with restores every free list as a multiset, and the free count |
| BuddyAllocator.DeallocateUndoesAllocate | reference-rs/src/memory.rs:157-191 | Allocating and deallocating restores live blocks and free lists |
| BuddyAllocator.ListEntriesIsCount | reference-rs/src/memory.rs:58-59 | The entries of the free lists are as many as the blocks they stand for: no block is listed twice |
| BuddyAllocator.IdleBlockCount | reference-rs/src/memory.rs:100-115 | The lists of an idle arena have total / 2^20 + popcount(total mod 2^20) entries altogether |
| PhysicalMemory.PhysicalAllocator.constructor | reference-rs/src/memory.rs:67-76 | A new allocator satisfies the invariant with nothing live |
| PhysicalMemory.PhysicalAllocator.SeedFreeLists | reference-rs/src/memory.rs:100-115 | The seeding loop ends, for every page count, in a canonical state, having pushed exactly total / 2^20 + popcount(total mod 2^20) blocks, in ascending order |
| PhysicalMemory.PhysicalAllocator.EnsureFreeBlock | reference-rs/src/memory.rs:127-155 | The search and split loops give the split-down lists of the smallest sufficient source order, or the error and no change |
| PhysicalMemory.PhysicalAllocator.Allocate | reference-rs/src/memory.rs:157-164 | In-place allocation is the functional one, with its success condition |
| PhysicalMemory.PhysicalAllocator.Deallocate | reference-rs/src/memory.rs:171-191 | In-place deallocation is the functional one, with its success condition |
| PhysicalMemory.PhysicalAllocator.FreePageCount | reference-rs/src/memory.rs:193-199 | The count and the live pages add up to the total |
| ProcessMemory.AllocatePage | reference-rs/src/memory.rs:157-164 | A single page can be had exactly when the free count is positive, and costs one |
| ProcessMemory.PageCountIsLeast | reference-rs/src/memory.rs:291 | The page count is the least that holds so many bytes |
| ProcessMemory.KeysAre | reference-rs/src/memory.rs:293-296 | The page keys of a range are its start and every 4096 bytes on |
| ProcessMemory.MapPagesCorrect | reference-rs/src/memory.rs:291-296 | The mapping loop maps as many pages as asked or, if fewer are free, as many as are free: exactly those keys, with the rights asked, and exactly what was mapped at them is displaced |
| ProcessMemory.AllocateVirtualCorrect | reference-rs/src/memory.rs:271-300 | Succeeds exactly when allowed and enough pages are free; the exact keys mapped, region, next address and displaced frames of success and of exhaustion midway; denial changes nothing |
| ProcessMemory.UnmapPagesCorrect | reference-rs/src/memory.rs:314-320 | Unmapping a mapped range never fails midway and returns one frame per page |
| ProcessMemory.UnmapPagesStops | reference-rs/src/memory.rs:315-319 | If a page of the range is not mapped, unmapping stops there with that error; the pages before it are gone and their frames free |
| ProcessMemory.DeallocateVirtualCorrect | reference-rs/src/memory.rs:302-321 | Succeeds exactly for registered starts, unmaps exactly the region's pages, returns exactly its page count; otherwise nothing changes |
| ProcessMemory.RoundTripIff | reference-rs/src/memory.rs:271-321 | Allocating and deallocating restores the live frames exactly when the region is empty or no registered region starts at the next address |
| ProcessMemory.EmptyRegionBreaksRoundTrip | reference-rs/src/memory.rs:297-312 | After allocating an empty region, allocating and deallocating one page loses a frame |
| ProcessMemory.HandlePageFaultCorrect | reference-rs/src/memory.rs:326-346 | A fault is satisfied exactly inside a region that permits it with a page free; one key changes and what was mapped there is displaced; otherwise nothing changes and the error says which of the three was missing |
| ProcessMemory.AlignedFaultDisplaces | reference-rs/src/memory.rs:342-345 | In a region that starts on a page boundary every satisfied fault displaces one frame |
| ProcessMemory.InstallKeepsOk | reference-rs/src/memory.rs:254-259 | What one process did to the shared allocator keeps isolation and accounting for all |
| ProcessMemory.PerformKeepsOk | reference-rs/src/memory.rs:271-346 | Every call of every process, failing or not, keeps isolation, accounting and region agreement |
| ProcessMemory.FramesConserved | reference-rs/src/memory.rs:193-199 | Free and live frames add up to the arena |
| ProcessMemory.EveryRunIsAccounted | reference-rs/src/memory.rs:261-346 | Over every run of any number of processes no frame is mapped twice, live frames are the mapped and the displaced ones, and regions stay mapped and apart |
| ProcessContext.PageTable.MapPage | reference-rs/src/memory.rs:220-222 | One key is set, whatever was there |
| ProcessContext.PageTable.UnmapPage | reference-rs/src/memory.rs:224-229 | Returns and removes the frame of a mapped key, else reports it unmapped |
| ProcessContext.PageTable.Translate | reference-rs/src/memory.rs:231-241 | Yields the frame exactly when the key is mapped with every right wanted, and which error otherwise |
| ProcessContext.HeapAccessIff | reference-rs/src/memory.rs:279-289 | The heap is granted exactly to a holder of a live token for it to read and create, and to write and execute if that was asked |
| ProcessContext.ProcessMemoryContext.AllocateVirtual | reference-rs/src/memory.rs:271-300 | The check, the loop and the registration, in place, are the functional operation; denied exactly without such a token; regions and next address written out; the broker only gains the audit entry of that check |
| ProcessContext.ProcessMemoryContext.DeallocateVirtual | reference-rs/src/memory.rs:302-321 | The in-place removal and unmapping loop is the functional operation, whatever the public list of regions holds |
| ProcessContext.ProcessMemoryContext.HandlePageFault | reference-rs/src/memory.rs:326-346 | The in-place fault handler is the functional operation |
| Capability.IntersectIsRequestIffCovered | reference-rs/src/capability.rs:69-92 | The intersection equals the request exactly when the source covers it, and never exceeds either |
| Capability.CoversIsInclusion | reference-rs/src/capability.rs:69-78 | Permissions cover others exactly when they include all of their rights, right by right |
| Capability.IntersectIsIntersection | reference-rs/src/capability.rs:81-92 | The intersection has a right exactly when both have it |
| Capability.SameRights | reference-rs/src/capability.rs:43-52 | Permissions with the same eight rights are the same |
| Capability.PathCoversIff | reference-rs/src/capability.rs:316-323 | A path with a final star covers exactly the paths that go on from its prefix, any other only itself |
| Capability.DecideIff | reference-rs/src/capability.rs:230-268 | Allowed exactly if some token of this subject and type, with a covering path, unrevoked and unexpired, has all rights asked; else Revoked, Expired or Denied by what its tokens for the path are |
| Capability.DelegateIffCovered | reference-rs/src/capability.rs:275-309 | Delegation succeeds exactly for a live, delegatable source that covers the request, and adds one token with the source's type, path and expiry and exactly the permissions requested; otherwise nothing changes and the error says why |
| Capability.RevokeIsFlag | reference-rs/src/capability.rs:194-198 | Revoking succeeds exactly for existing tokens, sets that flag and changes nothing else |
| Capability.ApplyKeepsTraced | reference-rs/src/capability.rs:159-309 | After any call every token is directly issued or derived from an earlier one that had the delegate bit and the same type, path and expiry |
| Capability.ReplayIsMadeBy | reference-rs/src/capability.rs:159-309 | Every token there is was made by a call of the history, an issue or a delegation, with just its properties |
| Capability.ChainIsSound | reference-rs/src/capability.rs:275-309 | The chain behind a token, of any length, covers what the token covers, back to a direct issue |
| Capability.AllowedIsTraced | reference-rs/src/capability.rs:230-309 | Over every history an Allowed decision rests on an unrevoked token of that very subject, and traces through delegations, each one a call of the history, to a token of the same type, path and expiry that an issue call of the history made and that covers the request |
| Capability.RevocationIsFinal | reference-rs/src/capability.rs:188-198 | A revoked token stays revoked through every later history, grants nothing and never verifies; the other tokens are as they were |
| Capability.IssueGrants | reference-rs/src/capability.rs:159-268 | What is issued is allowed to its subject through every later history, until it is revoked or expires |
| Capability.DelegationGrants | reference-rs/src/capability.rs:230-309 | So is what is delegated, even after its source is revoked |
| Capability.CapabilityBroker.Issue | reference-rs/src/capability.rs:159-186 | Adds the described token, field by field, under an id never used before |
| Capability.CapabilityBroker.Revoke | reference-rs/src/capability.rs:194-198 | Sets the flag of that token, or reports it missing and changes nothing |
| Capability.CapabilityBroker.Verify | reference-rs/src/capability.rs:201-203 | A token verifies exactly when it exists, is not revoked and has not expired, which is also when delegating from it does not report it missing |
| Capability.CapabilityBroker.CheckAccess | reference-rs/src/capability.rs:211-228 | Allowed exactly if some token of this subject and type, with a covering path, unrevoked and unexpired, covers what is asked; the decision is logged |
| Capability.CapabilityBroker.Lookup | reference-rs/src/capability.rs:230-268 | The loop over tokens with its two flags decides Allowed exactly if some token grants, else Revoked, Expired or Denied in that order |
| Capability.CapabilityBroker.Delegate | reference-rs/src/capability.rs:275-309 | When it succeeds and the whole new token, field by field; otherwise nothing changes |
| RingBuffers.DeliveredIsPrefix | reference-rs/src/ipc.rs:44-60 | In a FIFO history delivered messages, then queued ones, are the accepted ones in order |
| RingBuffers.DistinctSlots | reference-rs/src/ipc.rs:94 | Indices less than a capacity apart address different slots |
| RingBuffers.ProducerStepKeepsInv | reference-rs/src/ipc.rs:84-99 | Each shared access of `enqueue` keeps the invariant whatever the consumer is doing |
| RingBuffers.ConsumerStepKeepsInv | reference-rs/src/ipc.rs:102-113 | Each shared access of `dequeue` keeps the invariant whatever the producer is doing |
| RingBuffers.EveryScheduleIsFifo | reference-rs/src/ipc.rs:84-113 | Under every interleaving the calls form a history of a bounded FIFO queue of length `len`; nothing is lost, duplicated or reordered, and every take finds a message |
| RingBuffers.EveryOfferIsAnswered | reference-rs/src/ipc.rs:84-99 | Under every interleaving the i-th `enqueue` to end accepts the very message it was given or finds the queue full |
| RingBuffers.SlotsNeverShared | reference-rs/src/ipc.rs:84-113 | Under every interleaving the two threads are never at the same slot, and the indices differ by `len` up to what each has stored |
| RingBuffers.EnqueueAloneEffect | reference-rs/src/ipc.rs:84-99 | The steps of an undisturbed `enqueue` add up to one write and two increments, or to nothing when full |
| RingBuffers.DequeueAloneEffect | reference-rs/src/ipc.rs:102-113 | The steps of an undisturbed `dequeue` take the oldest message, or nothing when empty |
| RingBuffers.RingBuffer.Enqueue | reference-rs/src/ipc.rs:84-99 | In place: appends unless full |
| RingBuffers.RingBuffer.Dequeue | reference-rs/src/ipc.rs:102-113 | In place: removes and returns the oldest unless empty |
| RingBuffers.RingBuffer.Len | reference-rs/src/ipc.rs:115-117 | The count is the number of queued messages |
| RingBuffers.RingBuffer.IsEmpty | reference-rs/src/ipc.rs:119-121 | True exactly when nothing is queued |
| Ports.DecimalInjective | reference-rs/src/ipc.rs:217-219 | Different port ids print differently |
| Ports.DecimalReadsBack | reference-rs/src/ipc.rs:217-219 | Printing a port id gives digits without leading zeros that read back as that id |
| Ports.PortPathReadsBack | reference-rs/src/ipc.rs:217-219 | A port's path is `port:` and its id in decimal |
| Ports.PortPathCoversOnlyItself | reference-rs/src/ipc.rs:217-219 | The path of one port authorises no other port |
| Ports.AccessIff | reference-rs/src/ipc.rs:181-211 | Sending is allowed exactly to a holder of a live token for the port that may write, receiving to one that may read |
| Ports.SendIff | reference-rs/src/ipc.rs:173-193 | When sending succeeds, which of the three errors it gives otherwise, and all that it changes |
| Ports.ReceiveIff | reference-rs/src/ipc.rs:195-214 | When receiving succeeds, which of the three errors it gives otherwise, and all that it changes |
| Ports.DeleteIff | reference-rs/src/ipc.rs:169-171 | Deleting removes that port, reports a missing one, and changes nothing else |
| Ports.OwnerMay | reference-rs/src/ipc.rs:144-167 | A new port is empty under the next id, and its owner may send to it, receive from it and delegate, by a token for no other port |
| Ports.DoKeepsInOrder | reference-rs/src/ipc.rs:141-214 | Every operation on ports and broker keeps each queue equal to what was sent less what was received |
| Ports.EveryDeliveryIsInOrder | reference-rs/src/ipc.rs:173-214 | Over every history a port delivers its oldest undelivered message; each was sent by a holder of a live token to write, and received by a holder of a live token to read, at that moment |
| Ports.DeletedStaysDeleted | reference-rs/src/ipc.rs:151-171 | A port that is gone never accepts or delivers again, its id is not reused |
| Ports.DeletedIsGone | reference-rs/src/ipc.rs:151-214 | Once deleted, a port refuses every send and receive in every later history |
| Ports.BrokerReplays | reference-rs/src/ipc.rs:144-214 | Whatever happens on ports, the broker is in the state that the calls made to it leave it in |
| Ports.EveryMessageIsTraced | reference-rs/src/ipc.rs:173-214 | Whatever a port accepted or delivered was covered by a token of that sender or receiver, for that port, to write or to read, which traces through sound delegations to one that an earlier issue made and that served for the same |
| Ports.PortTable.CreatePort | reference-rs/src/ipc.rs:144-167 | The in-place creation is the functional one: an empty port under the next id, with a queue object of its own |
| Ports.PortTable.DeletePort | reference-rs/src/ipc.rs:169-171 | Removes that port from the table, or reports it missing; the other ports stay |
| Ports.PortTable.SendMessage | reference-rs/src/ipc.rs:173-193 | Denied exactly without a live token to write; otherwise the message is queued at that port, or the error says why not and nothing changes; no other port's queue changes; the check is logged |
| Ports.PortTable.ReceiveMessage | reference-rs/src/ipc.rs:195-214 | Denied exactly without a live token to read; otherwise the oldest message leaves that port, or the error says why not and nothing changes; no other port's queue changes; the check is logged |
| RunQueues.AddAgreesIff | reference-rs/src/scheduler.rs:67-78 | Adding stores the process as given, and keeps the indexes in agreement exactly when it replaces no other key, as for every fresh pid |
| RunQueues.ReAddingLeavesStaleKey | reference-rs/src/scheduler.rs:67-78 | A pid added again with another runtime leaves its first key behind |
| RunQueues.RemoveAgrees | reference-rs/src/scheduler.rs:80-92 | Removing takes the process and its key |
| RunQueues.ChargeAgrees | reference-rs/src/scheduler.rs:105-115 | Charging adds to the runtime of that process if it is a normal one, re-keys it, and changes no other |
| RunQueues.PickIsScan | reference-rs/src/scheduler.rs:94-101 | With agreeing indexes the pick is a linear scan: earliest deadline, then least runtime, ties by pid |
| RunQueues.ChargeKeepsRealTimePick | reference-rs/src/scheduler.rs:94-115 | While a real-time process is queued, charging never changes the pick |
| RunQueues.RunQueue.AddProcess | reference-rs/src/scheduler.rs:67-78 | The processes and both indexes afterwards, written out |
| RunQueues.RunQueue.RemoveProcess | reference-rs/src/scheduler.rs:80-92 | The processes and both indexes afterwards, written out; the process is returned |
| RunQueues.RunQueue.PickNextTask | reference-rs/src/scheduler.rs:96-101 | Returns the process the scan chooses |
| RunQueues.RunQueue.UpdateVruntime | reference-rs/src/scheduler.rs:105-115 | Each runtime afterwards, written out; the indexes stay in agreement |
| Fairness.PickIsLeast | reference-rs/src/scheduler.rs:96-101 | Among normal processes only, the pick has the least (runtime, pid) |
| Fairness.AheadCounts | reference-rs/src/scheduler.rs:182-191 | The count of a process's turns before another's is the number of k with (v + k*d, pid) lexicographically below |
| Fairness.WaitIsExact | reference-rs/src/scheduler.rs:170-191 | Before a process is picked there are exactly as many other picks as those counts add up to |
| Fairness.EqualStartsStayEven | reference-rs/src/scheduler.rs:195-219 | From equal runtimes no process is ever picked two times more than another |
| Fairness.TickLeads | kernel-x86_64/src/scheduler_bridge.rs:549-565 | After any tick the current task's runtime is at most 1 above the least |
| Fairness.TicksKeepSpread | kernel-x86_64/src/scheduler_bridge.rs:549-565 | Over any number of ticks the spread of runtimes stays within the larger of what it was and 2 |
| Fairness.LagStep | kernel-x86_64/src/scheduler_bridge.rs:558-560 | Each tick spent on somebody else uses up one of the ticks that a waiting task may have to wait |
| Fairness.EveryTaskRuns | kernel-x86_64/src/scheduler_bridge.rs:549-565 | Each queued task becomes current within the sum of the others' lags |
| ContextSwitch.SaveThenLoad | kernel-x86_64/src/context.rs:45-62 | A suspended context is popped back exactly if and only if its seven words are as they were pushed |
| ContextSwitch.SavedWords | kernel-x86_64/src/context.rs:45-52 | A frame is, from the return address down, rbp, rbx, r12, r13, r14 and r15, and nothing else is written |
| ContextSwitch.FreshTaskStarts | kernel-x86_64/src/context.rs:64-107 | The first frame lies inside the buffer; switching to it enters the trampoline with the entry in r15 and rsp 8 past a multiple of 16, as System V AMD64 psABI section 3.2.2 wants at a function's entry |
| ContextSwitch.FirstFrameWords | kernel-x86_64/src/context.rs:80-107 | The first frame, word by word: trampoline, five zeros, entry, as high in the buffer as alignment allows |
| ContextSwitch.Processor.SwitchTo | kernel-x86_64/src/context.rs:45-62 | Which word is written where, which register is loaded from where, and that nothing else is written |
| ContextSwitch.Processor.WriteFirstFrame | kernel-x86_64/src/context.rs:80-107 | The seven descending writes build the first frame and write nothing else |
| TaskStack.StacksApart | kernel-x86_64/src/task_stack.rs:69-100 | Each stack ends where the next slot's guard page begins, so no two overlap |
| TaskStack.SlotAddresses | kernel-x86_64/src/task_stack.rs:69-100 | The addresses of guard page, stack and top, in numbers |
| TaskStack.GuardPagesNeverMapped | kernel-x86_64/src/task_stack.rs:107-132 | Whatever slots have been used, no guard page is mapped, and each stack page is mapped exactly if its own slot was used |
| TaskStack.TaskStacks.EnsureSlotMapped | kernel-x86_64/src/task_stack.rs:111-132 | Maps that slot's pages and no others, once, and returns the top of its stack |
| Kernel.SuspendKeepsResumable | kernel-x86_64/src/scheduler_bridge.rs:289-300 | Saving the running context where its pid says leaves every context resumable, itself at what was saved |
| Kernel.SwitchIsExact | kernel-x86_64/src/scheduler_bridge.rs:572-577 | Switching between two contexts restores the second exactly and keeps all others |
| Kernel.AbandonIsExact | kernel-x86_64/src/scheduler_bridge.rs:454-480 | Leaving a context for good restores the next exactly and keeps all others |
| Kernel.TickKeepsBooks | kernel-x86_64/src/scheduler_bridge.rs:540-578 | A tick keeps slots, queue, current pid, budget rule and address space in agreement |
| Kernel.TakePidKeepsBooks | kernel-x86_64/src/scheduler_bridge.rs:362 | The pid a spawn takes is nobody's, neither queued nor reserved nor exited, and taking it keeps the books in agreement |
| Kernel.InstallKeepsBooks | kernel-x86_64/src/scheduler_bridge.rs:364-398 | Installing a task whose pid was taken any time before, with a slot or without, keeps them in agreement |
| Kernel.ExitKeepsBooks | kernel-x86_64/src/scheduler_bridge.rs:447-471 | An exit keeps them in agreement, frees the pid and leaves it |
| Kernel.TickIsExact | kernel-x86_64/src/scheduler_bridge.rs:562-578 | A tick either leaves registers, memory and slots alone or suspends one context as it is and resumes another as it was |
| Kernel.ExitIsExact | kernel-x86_64/src/scheduler_bridge.rs:447-482 | An exit resumes another context as it was |
| Kernel.FreshFrame | kernel-x86_64/src/scheduler_bridge.rs:376-387 | In a slot's stack the first frame is in bounds, 8 bytes below the top, aligned, and nothing outside that stack changes |
| Kernel.InstallTakesFreeSlot | kernel-x86_64/src/scheduler_bridge.rs:364-398 | Installing a task fails exactly when all slots are taken, and then changes nothing; otherwise it writes only to the stack of a slot no live context has, under the pid that was taken |
| Kernel.FreeStackIsUnused | kernel-x86_64/src/scheduler_bridge.rs:379-386 | The stack of a free slot holds neither the running stack pointer nor any suspended frame |
| Kernel.StepKeepsInv | kernel-x86_64/src/scheduler_bridge.rs:361-578 | Every tick, pid taken, task installed, exit and stretch of ordinary running keeps the whole invariant |
| Kernel.TickExactly | kernel-x86_64/src/scheduler_bridge.rs:540-578 | Every tick is counted, past the budget too; who is charged, who is chosen and when it is the boot flow, and what a tick leaves alone |
| Kernel.ExitExactly | kernel-x86_64/src/scheduler_bridge.rs:447-482 | Which slot an exit empties, what it takes off the queue, whom it turns to, and what it leaves alone |
| Kernel.InstallExactly | kernel-x86_64/src/scheduler_bridge.rs:364-398 | Slot, first frame, queue entry of an installed task, and that nothing else changes |
| Kernel.DesiredL4Is | kernel-x86_64/src/scheduler_bridge.rs:405-414 | A task's own address space if it has one, the default for boot, for others and for unknown pids |
| KernelRuns.EveryRunKeepsBooks | kernel-x86_64/src/scheduler_bridge.rs:509-578 | Over every run since boot, pids taken and tasks installed in any order: distinct slot pids, equal to the queued ones; current is boot or has a slot; the exited have none; the active address space is the current task's own, or the one at boot |
| KernelRuns.EveryTickIsCounted | kernel-x86_64/src/scheduler_bridge.rs:540-543 | Over every run, past the budget too, the tick count grows by the number of ticks |
| KernelRuns.PreemptedResumesExactly | kernel-x86_64/src/scheduler_bridge.rs:540-578 | Whoever a tick preempts, boot included, is resumed with the same rsp, return address and callee-saved registers, whatever happened in between |
| KernelRuns.FirstRunIsFresh | kernel-x86_64/src/context.rs:64-107 | A spawned task, whenever it first runs, starts in the trampoline with its entry in r15 and an aligned stack |
| KernelRuns.ExitedNeverRuns | kernel-x86_64/src/scheduler_bridge.rs:443-482 | Over every later run an exited pid is never current and never has a slot |
| KernelRuns.HandbackIsFinal | kernel-x86_64/src/scheduler_bridge.rs:463-469 | Once the budget is passed boot is current for good, and so no exit ever sees it passed |
| KernelRuns.FallbacksUnreachable | kernel-x86_64/src/scheduler_bridge.rs:289-310 | Every look-up that a switch makes finds its slot, an exit's in the slots without the one it cleared |
| KernelRuns.ExitChoosesLeast | kernel-x86_64/src/scheduler_bridge.rs:450-469 | An exit takes just that process off the queue and turns to the least of the rest, or to boot if none is left |
| KernelRuns.SpawnRunExitReturns | kernel-x86_64/src/scheduler_bridge.rs:361-578 | On an idle kernel a spawned task gets the next tick and starts in the trampoline; when it exits, boot goes on with the registers and address space it was interrupted in, and the queue is empty again |
| KernelRuns.InstallEnqueues | kernel-x86_64/src/scheduler_bridge.rs:394-397 | A task that finds a slot is queued as a normal process with runtime 0 beside the others as they were |
| KernelRuns.TickSchedules | kernel-x86_64/src/scheduler_bridge.rs:546-565 | Within the budget a tick of the kernel schedules as the pick-then-charge loop does |
| KernelRuns.QuietRunTicks | kernel-x86_64/src/scheduler_bridge.rs:546-565 | So does every run in which nothing is installed and none exits, whatever the tasks do in between |
| KernelRuns.FirstTickLeads | kernel-x86_64/src/scheduler_bridge.rs:552-560 | After one tick, whatever was spawned before, the current task is at most 1 ahead of the least |
| KernelRuns.ExitKeepsEven | kernel-x86_64/src/scheduler_bridge.rs:450-469 | When a task exits, the least of the rest becomes current and the spread does not grow |
| KernelRuns.SpreadStaysBounded | kernel-x86_64/src/scheduler_bridge.rs:540-566 | From then on, until another task is installed, whoever exits, the spread of runtimes stays within the larger of what it was and 2 while the budget lasts |
| KernelRuns.EveryQueuedTaskRuns | kernel-x86_64/src/scheduler_bridge.rs:540-566 | And every queued task becomes current within a number of ticks bounded by the sum of the others' lags, whoever else exits, while no task is installed and the budget lasts |
| Bridge.SchedulerBridge.Init | kernel-x86_64/src/scheduler_bridge.rs:509-516 | Installs an empty queue and records the active address space as the default |
| Bridge.SchedulerBridge.ContextPtrOf | kernel-x86_64/src/scheduler_bridge.rs:289-300 | The look-up loop finds where a pid's stack pointer is kept, fallback included |
| Bridge.SchedulerBridge.ContextRspOf | kernel-x86_64/src/scheduler_bridge.rs:302-310 | The look-up loop finds a pid's saved stack pointer, fallback included |
| Bridge.SchedulerBridge.DesiredL4Frame | kernel-x86_64/src/scheduler_bridge.rs:405-414 | The look-up loop finds the frame a pid should run in |
| Bridge.SchedulerBridge.SwitchAddressSpaceTo | kernel-x86_64/src/scheduler_bridge.rs:433-441 | Afterwards the active frame is the desired one, if there is one, and nothing else changed |
| Bridge.SchedulerBridge.OnTimerTick | kernel-x86_64/src/scheduler_bridge.rs:540-578 | The in-place tick is the functional transition, and counts |
| Bridge.SchedulerBridge.PickOrBoot | kernel-x86_64/src/scheduler_bridge.rs:463-468 | The run queue's pick, or boot when there is none or the budget is spent |
| Bridge.SchedulerBridge.ReserveNextPid | kernel-x86_64/src/scheduler_bridge.rs:362 | The fetch-and-add is the functional step |
| Bridge.SchedulerBridge.InstallNewTask | kernel-x86_64/src/scheduler_bridge.rs:364-398 | The masked section, in place, is the functional step, and the slot's stack is mapped |
| Bridge.SchedulerBridge.SpawnTaskImpl | kernel-x86_64/src/scheduler_bridge.rs:361-399 | An uninterrupted spawn, in place, is taking a pid and installing the task |
| Bridge.SchedulerBridge.ExitCurrentTask | kernel-x86_64/src/scheduler_bridge.rs:447-482 | The in-place exit is the functional transition |

## Left out

- 64-bit width: addresses, indices, runtimes, ticks and ids are unbounded; the model says nothing about a sum that passes 2^64.
- Weak memory: the ring buffer's accesses are sequentially consistent steps, which its acquire and release orderings are meant to justify.
- Several producers or several consumers on one ring buffer, which its documentation excludes.
- What a run leaves in which order in a free list: each call's effect on the order is exact, but over runs the canonical form speaks of multisets.
- A region whose end is before its start, which only a caller writing to the public `regions` can make: its size is the wrapped 64-bit difference; that a build with overflow checks panics there is not modelled.
- Revoking a token does not revoke what was delegated from it; the model has no cascade because the code has none.
- The audit log is modelled for `check_access` only, the one operation that writes it.
- The interrupt flag and `sti`: interrupt masking appears as the atomicity of transitions; caller-saved registers and the interrupt frame belong to the memory and execution of the context.
- Task stack overflow: ordinary running is assumed to stay on its stack; what a fault in a guard page does is not modelled.
- Paging: an L4 frame is an opaque id and the pages of task stacks a set; `map_page` never fails, where the source panics.
- Boot self-test counters and the slot numbers recorded for it (`TASK_EXIT_SLOT` and the like), and the body of `init` after its first two assignments, which is a run of spawns.
- `exit_current_task` called by the boot flow, which is not a task.
- Hardware set-up, timers, serial and console output, SMP, the system-call demo, and the specification texts in `.ti`, `.hlx` and `.ax` files.
