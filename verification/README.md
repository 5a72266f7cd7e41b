# Verification of the kernel's resource management

A Dafny model of the parts of the kernel that hand out memory, processor time and bytes between
processes, with proofs of what they guarantee over whole runs:

- **The two memory managers** (`Dyadic`, `BuddySpec`, `BuddyTheorems`, `BuddyLayout`, `BuddyRefinement`,
  `BuddyRuns`, `Buddy`; `FirstFitSpec`, `FirstFitTheorems`, `FirstFitLayout`, `FirstFitRefinement`,
  `FirstFitMemory`, `FirstFitRuns`, `FirstFit`). Each has a specification on values, theorems about it, a description
  of how it is laid out in RAM, and a class whose methods work on an array of 8-byte words through the very pointers
  the C code writes. Allocator and callers, who store into their regions, make up one machine over RAM (`BuddyRuns`,
  `FirstFitRuns`); the methods take its steps, every run of it is a run of one interface (`AllocatorContract`), and
  what the stress test checks follows from that interface for both managers.
- **The queue** (`QueueSpec`, `Queue`): the linked list with its cyclic iterator, proved to do to its nodes what the
  specification does to a sequence, removals under the iterator included.
- **The scheduler** (`SchedulerSpec`, `PidQueues`, `AgingPasses`, `AgingEnds`, `AgingHangs`, `SchedulerInvariant`,
  `SchedulerTheorems`, `SchedulerEffects`, `FirstProcesses`, `Scheduler`): process table, four ready queues, aging,
  dispatch, and the steps of process creation, blocking and ending. The class `Scheduler` has the loops; the
  specification has the steps, with an aging pass given round by round as the loop makes it; the theorems say what the
  rounds come to, when they end, what each operation does to whom, and what holds in runs of steps by any number of
  processes.
- **Semaphores** (`SemaphoreSpec`, `SemaphoreTheorems`, `SemaphoreClients`, `Semaphores`): named semaphores with direct
  hand-off, on top of the scheduler, and what processes that share some of them may rely on whatever others do.
- **The MVar** (`MVarSpec`, `MVarTheorems`, `MVarSystem`): the user-level protocol over two semaphores.
- **Pipes** (`PipeSpec`, `PipeEffects`, `PipeProtocol`, `PipeSystem`, `PipeLifetime`, `Pipe`): the ring buffer, what each
  call does, the protocol between a writer and a reader, and when pipes are freed.
- **Waiting for a child** (`WaitExit`, `WaitSystem`).

The last three are treated first by themselves and then running on the kernel: their processes make their calls when
the scheduler lets them execute, and any other process or interrupt may act in between.

`dafny verify dfyconfig.toml` checks everything.

## Assumptions

- A kernel call up to its next blocking point is one step: system calls run behind an interrupt gate. Code resumed
  after blocking runs with interrupts enabled, and its atomicity is an assumption. The spin locks are not modelled.
- A scheduler call forced by `block_process`, `semWait` or `yield_cpu` is a step of its own in the theorems about
  runs, so that other steps may come before it. A woken process enters the scheduler once more; that is one more such
  step.
- Saved stack pointers are inside their stacks, so the last check of `schedule()` does not fire; what is switched to is
  the process left in `running_process`.
- Internal allocations (queue nodes, buffers, process records, names) succeed.
- Request sizes do not overflow. For the buddy manager that means at most 2^63 - 8 bytes, beyond which its doubling
  loop does not end. `base` of the first-fit manager lies below the heap, as its placement in the kernel image makes
  sure, and there is room for the header that `mm_init` writes at the start of the region, however small that is.
- The seven padding bytes after a buddy block's order count as part of its word.
- Freed pointers were handed out by the same manager and not freed since.
- Semaphore handles are names; a name is used by one semaphore at a time, and user counts stay below 65536. Values
  wrap at 65536, and the theorems say when that matters.
- The pipe protocol has one writer and one reader, writes of at most 16383 bytes, and a reader that attaches before the
  writer leaves and does not leave itself; the lifetime theorems allow any number of ends, but targets that have been
  issued.
- One process waits for a child, and it is not init, which cannot be blocked.

## Where the code differs from what it says

- `reset_aging` is documented to restore a boosted priority (TP2-SO-2025/Kernel/scheduler.c:115-118); it only clears
  the waiting time. The model follows the code (`SchedulerTheorems.BoostIsPermanent`, `FirstProcesses.BoostReached`).
- `set_priority` does not move a queued process. `SchedulerInvariant.SetPriorityInv` says exactly when this is
  harmless, `SchedulerTheorems.MovedThenKilled` and `AgingHangs.MovedThenBlocked` what happens when it is not.
- The aging loop tests for the end of a queue only after a process that waits to run. A queue whose first and last
  process do not wait keeps the timer interrupt going round for ever, and so can one whose first process waits but
  stands in it twice. `AgingEnds.TimerReturnsExactly`, `AgingEnds.PassEndsExactly` and `AgingEnds.PassEndsInTime` say
  when the loop ends, `AgingHangs.TimerHangs` and `AgingHangs.TimerHangsAgain` how the others come about.
- A post that reaches a killed process is lost, and init passes through a semaphore without a unit
  (`SemaphoreTheorems.KilledWaiterLosesPost`, `SemaphoreTheorems.PostIsLost`, `SemaphoreTheorems.WaitStep`,
  `SemaphoreTheorems.InitPasses`).
- Closing a semaphore for the last time leaves processes that wait in it blocked (`SemaphoreTheorems.CloseStrands`,
  `SemaphoreTheorems.StrandedForever`, `SemaphoreTheorems.WaiterStranded`).
- A second `mvarInit` on a full slot loses a value (`MVarTheorems.SecondInit`, `MVarTheorems.ValueIsLost`).
- A unit left in the semaphore of writers lets a writer into a full ring, which then looks empty
  (`PipeEffects.SpareUnitLosesRing`).
- A write larger than the ring to a waiting reader blocks both for ever (`PipeProtocol.OversizedWriteDeadlocks`,
  `PipeProtocol.DeadlockReached`).
- Killing a process that has ended but is not reaped takes ends away from others (`PipeLifetime.KillEnded`,
  `PipeLifetime.KilledTwice`).
- A reused pid may find an old post (`WaitExit.ReusedPid`, `WaitExit.UnwaitedPost`, `WaitExit.SecondPost`).

## Model

| member | source | states |
|---|---|---|
| AllocatorContract.RegionsArePrivate | TP2-SO-2025/Userland/Shell/commands/test_mm.c:32-56 | over any run of requests, frees and stores behind the common interface, every owner reads back from its region exactly what it stored there; both managers are shown to produce such runs |
| AllocatorContract.StepAgrees | TP2-SO-2025/Userland/Shell/commands/test_mm.c:42-51 | one request, free or store keeps every region equal to a private array of its owner |
| AllocatorContract.Untouched | TP2-SO-2025/Userland/Shell/commands/test_mm.c:41-51 | a region that is neither freed nor stored into keeps its contents over any run, however much is requested, freed and stored elsewhere |
| Buddy.BuddyAllocator.MmInit | TP2-SO-2025/Kernel/memory/buddy_system_mm.c:17-40 | the largest power-of-two block that fits is managed, is the only free block and accounts for all bytes; a region smaller than a minimum block leaves an allocator that owns nothing |
| Buddy.BuddyAllocator.TargetOrder | TP2-SO-2025/Kernel/memory/buddy_system_mm.c:45-55 | the order found by doubling is the least whose block holds the request and its header |
| Buddy.BuddyAllocator.OrdersThatFit | TP2-SO-2025/Kernel/memory/buddy_system_mm.c:22-26 | the loop over the orders stops at the largest block that fits into the region |
| Buddy.BuddyAllocator.MmAlloc | TP2-SO-2025/Kernel/memory/buddy_system_mm.c:42-83 | RAM, lists and answer afterwards are those of the machine of BuddyRuns, they represent its state, and no word of a live region changes; size 0, too large an order and an empty allocator answer NULL |
| Buddy.BuddyAllocator.Carve | TP2-SO-2025/Kernel/memory/buddy_system_mm.c:61-77 | popping a list and halving the block writes exactly the words and list heads that the RAM-level function describes |
| Buddy.BuddyAllocator.MmFree | TP2-SO-2025/Kernel/memory/buddy_system_mm.c:85-114 | RAM and lists afterwards are those of the machine of BuddyRuns, with the block coalesced and listed, no word of another live region changes, NULL is ignored |
| Buddy.BuddyAllocator.Coalesce | TP2-SO-2025/Kernel/memory/buddy_system_mm.c:92-113 | the merge loop ends, and does what merging on values does while the exclusive-or address names a free buddy |
| Buddy.BuddyAllocator.IsBuddyFree | TP2-SO-2025/Kernel/memory/buddy_system_mm.c:116-125 | the walk answers true exactly when the block is in the list of that order |
| Buddy.BuddyAllocator.RemoveFromList | TP2-SO-2025/Kernel/memory/buddy_system_mm.c:127-143 | unlinks exactly the given block, whether or not it is the first |
| Buddy.BuddyAllocator.MmGetStats | TP2-SO-2025/Kernel/memory/buddy_system_mm.c:145-160 | total and free bytes are those of the managed region and of the listed blocks, and the rest is exactly what is handed out, after whatever has been requested and freed |
| Dyadic.XorIsBuddy | TP2-SO-2025/Kernel/memory/buddy_system_mm.c:93-97 | flipping the bit of the block size in an aligned relative address adds or subtracts the block size, whichever gives the other half |
| BuddyRefinement.BuddyAddress | TP2-SO-2025/Kernel/memory/buddy_system_mm.c:95-97 | the same for byte addresses and byte sizes of pages |
| Dyadic.AlignedIsMultiple | TP2-SO-2025/Kernel/memory/buddy_system_mm.c:93-97 | having the low bits zero is the same as starting at a multiple of the block size |
| Dyadic.Nested | TP2-SO-2025/Kernel/memory/buddy_system_mm.c:59-80 | two aligned power-of-two runs are nested or disjoint |
| Dyadic.BuddyInvolution | TP2-SO-2025/Kernel/memory/buddy_system_mm.c:95-104 | being buddies is mutual, and the lower one of the pair is where the joined block starts |
| BuddySpec.SplitInv | TP2-SO-2025/Kernel/memory/buddy_system_mm.c:65-72 | halving a block keeps the tiling: alignment, disjointness, coverage, no block twice, no free pair of buddies |
| BuddySpec.MergeInv | TP2-SO-2025/Kernel/memory/buddy_system_mm.c:99-106 | joining a block with its free buddy keeps the tiling |
| BuddySpec.TakeInv | TP2-SO-2025/Kernel/memory/buddy_system_mm.c:61-63 | unlinking the head of a list keeps the tiling |
| BuddySpec.ReleaseInv | TP2-SO-2025/Kernel/memory/buddy_system_mm.c:107-113 | listing a block whose buddy is not free keeps the tiling, with no two free buddies |
| BuddyTheorems.AllocInv | TP2-SO-2025/Kernel/memory/buddy_system_mm.c:59-82 | an allocation keeps the tiling and hands out one new block of the order asked for, or changes nothing |
| BuddyTheorems.FreeInv | TP2-SO-2025/Kernel/memory/buddy_system_mm.c:85-114 | a free keeps the tiling and takes back exactly the given block |
| BuddyTheorems.FreeRunInOneBlock | TP2-SO-2025/Kernel/memory/buddy_system_mm.c:92-113 | because of full coalescing every aligned run that is entirely free lies inside one listed block |
| BuddyTheorems.AllocFailsExactlyWhenFull | TP2-SO-2025/Kernel/memory/buddy_system_mm.c:59-82 | no false failures: an allocation fails if and only if no aligned run of its size is entirely free |
| BuddyTheorems.LiveDeterminesFree | TP2-SO-2025/Kernel/memory/buddy_system_mm.c:92-113 | the listed blocks are determined by what is handed out |
| BuddyTheorems.FreeUndoesAlloc | TP2-SO-2025/Kernel/memory/buddy_system_mm.c:42-114 | freeing what was just allocated brings back the same listed blocks |
| BuddyTheorems.AllocServes | TP2-SO-2025/Kernel/memory/buddy_system_mm.c:59-82 | the block comes from the head of the lowest list that has one, its left end is handed out, and the right halves left over are the only blocks in the lists between |
| BuddyTheorems.FreeGoesFirst | TP2-SO-2025/Kernel/memory/buddy_system_mm.c:92-113 | a freed block, with what it was joined with, is what the next request of that order gets |
| BuddyTheorems.RunInv | TP2-SO-2025/Kernel/memory/buddy_system_mm.c:42-114 | after any run of allocations and frees, free and live blocks partition the region, each at a multiple of its size, none listed twice, no two free buddies |
| BuddyTheorems.AllFreedRestoresInitial | TP2-SO-2025/Kernel/memory/buddy_system_mm.c:17-40 | once everything is freed, in any order, the state is the initial single block again |
| BuddyTheorems.NothingLiveIsInitial | TP2-SO-2025/Kernel/memory/buddy_system_mm.c:17-40 | with nothing handed out the state can only be the initial one |
| BuddyTheorems.RunBalanced | TP2-SO-2025/Kernel/memory/buddy_system_mm.c:145-160 | over any run, listed and handed-out memory add up to the managed region |
| BuddyRefinement.CarveRefines | TP2-SO-2025/Kernel/memory/buddy_system_mm.c:61-77 | the pointer writes of an allocation turn a heap laid out in RAM for one state into one for the next, without touching live payloads |
| BuddyRefinement.FreeRefines | TP2-SO-2025/Kernel/memory/buddy_system_mm.c:92-113 | so do the pointer writes of a free, through every round of merging |
| BuddyRefinement.AllocConforms | TP2-SO-2025/Kernel/memory/buddy_system_mm.c:42-83 | seen from outside, mm_alloc serves the common contract: enough bytes, inside the heap, disjoint, nothing of the others overwritten |
| BuddyRefinement.FreeConforms | TP2-SO-2025/Kernel/memory/buddy_system_mm.c:85-114 | seen from outside, mm_free serves the common contract |
| BuddyRuns.StoreKeepsHeap | TP2-SO-2025/Userland/Shell/commands/test_mm.c:42-44 | a store by the owner of a region, anywhere in it, leaves lists, metadata and state of the allocator as they are |
| BuddyRuns.RequestServes | TP2-SO-2025/Kernel/memory/buddy_system_mm.c:42-83 | one request from a heap in RAM leaves a heap in RAM and is a step of the common contract, whatever the size |
| BuddyRuns.OrderIsLeast | TP2-SO-2025/Kernel/memory/buddy_system_mm.c:45-55 | the order is that of the smallest block with room for the request and eight bytes of metadata |
| BuddyRuns.RequestFailsExactly | TP2-SO-2025/Kernel/memory/buddy_system_mm.c:42-83 | mm_alloc answers NULL exactly for an empty or oversized request and when no aligned run of blocks of its order is entirely free |
| BuddyRuns.ReturnServes | TP2-SO-2025/Kernel/memory/buddy_system_mm.c:85-114 | so is one return of a live pointer |
| BuddyRuns.RunServes | TP2-SO-2025/Userland/Shell/commands/test_mm.c:32-56 | every run of requests, returns of live pointers and stores by owners, on RAM, is a run of the common contract |
| BuddyRuns.OwnersKeepTheirData | TP2-SO-2025/Userland/Shell/commands/test_mm.c:32-56 | from the state mm_init leaves, over every such run, each region holds exactly what its owner has stored there, so the stress test never reports an error |
| BuddyRuns.DataStays | TP2-SO-2025/Userland/Shell/commands/test_mm.c:41-51 | a region filled once is found unchanged whatever happens to all the others |
| BuddyRuns.AllReturned | TP2-SO-2025/Kernel/memory/buddy_system_mm.c:85-114 | after any run of requests, returns and stores on RAM that leaves nothing handed out, the lists are those mm_init leaves |
| FirstFitMemory.UnitsFor | TP2-SO-2025/Kernel/memory/first_fit_mm.c:40-43 | the units taken cover the bytes asked for, less than one unit over, and a header |
| FirstFit.FirstFitAllocator.MmInit | TP2-SO-2025/Kernel/memory/first_fit_mm.c:15-31 | one free block behind the sentinel that accounts for all bytes; less than one unit leaves an empty block and nothing to hand out; no word but the two headers is written |
| FirstFit.FirstFitAllocator.MmAlloc | TP2-SO-2025/Kernel/memory/first_fit_mm.c:35-70 | memory and answer afterwards are those of the machine of FirstFitRuns, they hold its state, and no word of a live region changes; without a unit to manage the search ends and answers NULL |
| FirstFit.FirstFitAllocator.HandOut | TP2-SO-2025/Kernel/memory/first_fit_mm.c:49-64 | when the search has found a node, the writes and the answer are those of the machine |
| FirstFit.FirstFitAllocator.FindFit | TP2-SO-2025/Kernel/memory/first_fit_mm.c:45-69 | the roving search ends after at most one turn, turning down each node at most once, with the first node that is large enough |
| FirstFit.FirstFitAllocator.CutBlock | TP2-SO-2025/Kernel/memory/first_fit_mm.c:49-59 | an exact fit is unlinked, a larger block loses its tail |
| FirstFit.FirstFitAllocator.Take | TP2-SO-2025/Kernel/memory/first_fit_mm.c:49-63 | the rover is left in front of the block and the free count goes down by what was taken |
| FirstFit.FirstFitAllocator.MmFree | TP2-SO-2025/Kernel/memory/first_fit_mm.c:71-101 | memory afterwards is that of the machine of FirstFitRuns, with the block linked in at its place and joined, and no word of another live region changes |
| FirstFit.FirstFitAllocator.FindPlace | TP2-SO-2025/Kernel/memory/first_fit_mm.c:78-83 | the insertion search ends, wherever the rover stands, at the one node after which the block belongs |
| FirstFit.FirstFitAllocator.LinkBlock | TP2-SO-2025/Kernel/memory/first_fit_mm.c:85-98 | the block is joined with the neighbours it touches and linked between them |
| FirstFit.FirstFitAllocator.MmGetStats | TP2-SO-2025/Kernel/memory/first_fit_mm.c:103-114 | the counters are 16 bytes times the heap and times the free units, and the difference is what is handed out, after whatever has been requested and freed |
| FirstFitSpec.PositionUnique | TP2-SO-2025/Kernel/memory/first_fit_mm.c:78-83 | there is only one node after which a block belongs |
| FirstFitSpec.CutInv | TP2-SO-2025/Kernel/memory/first_fit_mm.c:49-63 | cutting keeps the list increasing with gaps and free and live blocks partitioning the heap |
| FirstFitSpec.FreeInv | TP2-SO-2025/Kernel/memory/first_fit_mm.c:71-101 | inserting and joining keep it too, with no two free blocks touching |
| FirstFitTheorems.FindIsFirstFit | TP2-SO-2025/Kernel/memory/first_fit_mm.c:48-69 | the search takes the first large enough block after the rover and fails only when every free block is too small |
| FirstFitTheorems.FreeRunInOneBlock | TP2-SO-2025/Kernel/memory/first_fit_mm.c:85-98 | every run of free words lies inside one free block |
| FirstFitTheorems.AllocFailsExactlyWhenFull | TP2-SO-2025/Kernel/memory/first_fit_mm.c:48-69 | a request fails if and only if no run of that many units is free |
| FirstFitTheorems.LiveDeterminesRing | TP2-SO-2025/Kernel/memory/first_fit_mm.c:71-101 | the whole free list is determined by what is handed out |
| FirstFitTheorems.FreeUndoesAlloc | TP2-SO-2025/Kernel/memory/first_fit_mm.c:35-101 | freeing what was just allocated restores the free list |
| FirstFitTheorems.AllocTakesTail | TP2-SO-2025/Kernel/memory/first_fit_mm.c:47-64 | a request gets the tail of the block that was found, all other blocks stay as they are, and the rover is left before it |
| FirstFitTheorems.FreeMovesRover | TP2-SO-2025/Kernel/memory/first_fit_mm.c:71-101 | after a free the rover is on the block that the freed one has become part of |
| FirstFitTheorems.RunInv | TP2-SO-2025/Kernel/memory/first_fit_mm.c:35-101 | after any run the list is one cycle through the sentinel, strictly increasing with one wrap, nothing overlapping or touching |
| FirstFitTheorems.AllFreedRestoresInitial | TP2-SO-2025/Kernel/memory/first_fit_mm.c:15-31 | once everything is freed, in any order, the list is the initial one |
| FirstFitTheorems.RunBalanced | TP2-SO-2025/Kernel/memory/first_fit_mm.c:76-76 | free and handed-out units add up to the heap over any run |
| FirstFitRefinement.CutRefines | TP2-SO-2025/Kernel/memory/first_fit_mm.c:49-61 | the pointer writes of an allocation keep RAM laid out as the cycle of the new state |
| FirstFitRefinement.LinkRefines | TP2-SO-2025/Kernel/memory/first_fit_mm.c:85-100 | so do the pointer writes of a free, for all four ways of joining |
| FirstFitRefinement.AllocConforms | TP2-SO-2025/Kernel/memory/first_fit_mm.c:35-70 | first fit serves the same contract on allocation as the buddy allocator |
| FirstFitRefinement.FreeConforms | TP2-SO-2025/Kernel/memory/first_fit_mm.c:71-101 | and on freeing |
| FirstFitRuns.StoreKeepsHeap | TP2-SO-2025/Userland/Shell/commands/test_mm.c:42-44 | a store by the owner of a region, anywhere in it, leaves list, headers and state of the allocator as they are |
| FirstFitRuns.RequestServes | TP2-SO-2025/Kernel/memory/first_fit_mm.c:35-70 | one request from a heap in RAM leaves a heap in RAM and is a step of the common contract, whatever the size |
| FirstFitRuns.RequestFailsExactly | TP2-SO-2025/Kernel/memory/first_fit_mm.c:35-70 | mm_alloc answers NULL exactly for an empty request and when no run of as many units as it needs is free |
| FirstFitRuns.ReturnServes | TP2-SO-2025/Kernel/memory/first_fit_mm.c:71-101 | so is one return of a live pointer |
| FirstFitRuns.RunServes | TP2-SO-2025/Userland/Shell/commands/test_mm.c:32-56 | every run of requests, returns of live pointers and stores by owners, on RAM, is a run of the common contract |
| FirstFitRuns.OwnersKeepTheirData | TP2-SO-2025/Userland/Shell/commands/test_mm.c:32-56 | from the state mm_init leaves, over every such run, each region holds exactly what its owner has stored there, so the stress test never reports an error |
| FirstFitRuns.DataStays | TP2-SO-2025/Userland/Shell/commands/test_mm.c:41-51 | a region filled once is found unchanged whatever happens to all the others |
| FirstFitRuns.AllReturned | TP2-SO-2025/Kernel/memory/first_fit_mm.c:71-101 | after any run of requests, returns and stores on RAM that leaves nothing handed out, the free list is the one mm_init leaves |
| FirstFitRuns.RunBalances | TP2-SO-2025/Kernel/memory/first_fit_mm.c:62-76 | over every such run free and handed-out units add up to the heap |
| Queue.Queue.constructor | TP2-SO-2025/Kernel/datastructures/queue.c:24-37 | an empty queue with no iterator |
| Queue.Queue.Enqueue | TP2-SO-2025/Kernel/datastructures/queue.c:39-69 | the node chain afterwards is the old sequence with the element at its end, the iterator where it was |
| Queue.Queue.Dequeue | TP2-SO-2025/Kernel/datastructures/queue.c:71-95 | removes and returns the head; an iterator on it moves to the next node, or off a queue that becomes empty |
| Queue.Queue.QueueRemove | TP2-SO-2025/Kernel/datastructures/queue.c:97-136 | deletes exactly the first match, or nothing; answers whether there was one |
| Queue.Queue.Unlink | TP2-SO-2025/Kernel/datastructures/queue.c:112-128 | head, tail, count and iterator agree with the chain after a node is unlinked at any position |
| Queue.Queue.QueuePeek | TP2-SO-2025/Kernel/datastructures/queue.c:138-144 | the head, unchanged |
| Queue.Queue.QueueSize | TP2-SO-2025/Kernel/datastructures/queue.c:164-169 | the number of stored elements |
| Queue.Queue.QueueBeginCyclicIter | TP2-SO-2025/Kernel/datastructures/queue.c:171-177 | puts the iterator on the head |
| Queue.Queue.QueueNextCyclicIter | TP2-SO-2025/Kernel/datastructures/queue.c:179-193 | returns the element under the iterator and goes round at the end |
| Queue.Queue.QueueCyclicIterLooped | TP2-SO-2025/Kernel/datastructures/queue.c:195-200 | true exactly when the iterator is on the head |
| Queue.Queue.QueueElementExists | TP2-SO-2025/Kernel/datastructures/queue.c:211-225 | true exactly when a match is stored; leaves the iterator behind it |
| QueueSpec.FirstMatchFinds | TP2-SO-2025/Kernel/datastructures/queue.c:110-133 | a first match exists exactly when some element compares equal |
| QueueSpec.FullTurn | TP2-SO-2025/Kernel/datastructures/queue.c:179-200 | from the head the iterator is back at the head after exactly as many steps as there are elements |
| QueueSpec.DropKeeps | TP2-SO-2025/Kernel/datastructures/queue.c:78-80 | removals elsewhere leave the iterator on its element |
| QueueSpec.DropUnder | TP2-SO-2025/Kernel/datastructures/queue.c:122-124 | an iterator on the element that is removed moves on to the next one, or off the queue when there is none |
| QueueSpec.DropOne | TP2-SO-2025/Kernel/datastructures/queue.c:97-136 | whatever is removed, the other elements stay in order |
| QueueSpec.DequeueTakesHead | TP2-SO-2025/Kernel/datastructures/queue.c:71-95 | a dequeue takes the head, and an iterator on it goes to the next element or off the queue |
| QueueSpec.SearchStops | TP2-SO-2025/Kernel/datastructures/queue.c:211-225 | a search leaves the iterator as many steps from the front as elements were looked at |
| QueueSpec.RemoveUndoesEnqueue | TP2-SO-2025/Kernel/datastructures/queue.c:39-136 | removing an element just enqueued, equal to no other, restores the queue |
| QueueSpec.FifoOrder | TP2-SO-2025/Kernel/datastructures/queue.c:39-95 | an element is dequeued after exactly those enqueued before it |
| Scheduler.Scheduler.Schedule | TP2-SO-2025/Kernel/scheduler.c:211-300 | from every state in which the aging loops end, a call of schedule() takes exactly the step Tick: aging, end of turn, dispatch |
| Scheduler.Scheduler.ApplyAging | TP2-SO-2025/Kernel/scheduler.c:78-113 | from every state in which the loops end, each lower queue is aged once, lowest first |
| Scheduler.Scheduler.AgePass | TP2-SO-2025/Kernel/scheduler.c:85-111 | walking a queue with its iterator while removing from it ends whenever some number of rounds ends it, and leaves the state of that last round |
| Scheduler.Scheduler.AgeTurn | TP2-SO-2025/Kernel/scheduler.c:88-111 | one round of that loop, for any process under the iterator: aged or passed over, and the iterator and the loop test as in the code |
| AgingPasses.AgeQueueIs | TP2-SO-2025/Kernel/scheduler.c:85-111 | on a queue of processes that all wait to run the rounds come to an end, and come to aging exactly the processes of the turn, once each and in order |
| AgingEnds.PassEndsExactly | TP2-SO-2025/Kernel/scheduler.c:88-110 | the loop leaves a queue that is empty, whose last process waits to run, or whose first process waits and becomes due in front, that is after whole laps in each of which all its places age it; it leaves no other, unless the first process becomes due elsewhere in front of another that waits |
| AgingEnds.PassEndsInTime | TP2-SO-2025/Kernel/scheduler.c:88-110 | for every queue: the loop leaves it within a number of rounds computed from its length, or never |
| AgingEnds.TimerReturnsExactly | TP2-SO-2025/Kernel/scheduler.c:78-113 | all aging loops of a timer interrupt end if and only if each lower queue is empty or its first or its last process waits to run, when no first process stands in its queue twice; a queue that is otherwise always hangs it |
| AgingHangs.MovedThenBlocked | TP2-SO-2025/Kernel/scheduler.c:88-93 | a process alone in the lowest queue, given another priority and blocked, makes the next timer interrupt go round for ever |
| AgingHangs.NewThenBlocked | TP2-SO-2025/Kernel/process.c:300-317 | whenever the lowest queue is empty this can be done to a new process |
| AgingHangs.TimerHangs | TP2-SO-2025/Kernel/scheduler.c:88-93 | and it can be done in a run from boot |
| AgingHangs.TwoPlaces | TP2-SO-2025/Kernel/datastructures/queue.c:97-136 | a first process that waits is not enough: where it stands twice, in front of others that do not wait, the loop ends if and only if it is due or has waited an odd number of ticks |
| AgingHangs.FirstStandsTwice | TP2-SO-2025/Kernel/process.c:300-317 | changing its priority, blocking it, changing it back and waking it puts a process into its queue a second time, and such a queue comes about |
| AgingHangs.TimerHangsAgain | TP2-SO-2025/Kernel/scheduler.c:88-110 | in a run from boot |
| SchedulerInvariant.AgingReturns | TP2-SO-2025/Kernel/scheduler.c:78-113 | while no queued process is given another priority the aging loops always end |
| Scheduler.Scheduler.EndTurn | TP2-SO-2025/Kernel/scheduler.c:218-237 | what becomes of the interrupted process in each of its states |
| Scheduler.Scheduler.DispatchNext | TP2-SO-2025/Kernel/scheduler.c:239-285 | the dequeue loops give the processor to the first runnable process of the highest queue that has one, or to idle |
| Scheduler.Scheduler.NextIn | TP2-SO-2025/Kernel/scheduler.c:247-263 | the inner dequeue loop drops what is not runnable |
| Scheduler.Scheduler.AddToScheduler | TP2-SO-2025/Kernel/scheduler.c:168-180 | the process becomes ready at the end of the queue of its priority; idle is never queued |
| Scheduler.Scheduler.RemoveProcessFromScheduler | TP2-SO-2025/Kernel/scheduler.c:186-200 | the process leaves its queue and the processor |
| Scheduler.Scheduler.BlockProcess | TP2-SO-2025/Kernel/scheduler.c:326-343 | refuses idle, init, blocked and terminated processes; otherwise the process is out of its queue and blocked, and the scheduler is entered if it was running |
| Scheduler.Scheduler.UnblockProcess | TP2-SO-2025/Kernel/scheduler.c:315-324 | wakes exactly blocked processes that are neither idle nor init |
| Scheduler.Scheduler.FindPid | TP2-SO-2025/Kernel/process.c:122-129 | the lowest pid that is unused or belongs to a terminated process |
| Scheduler.Scheduler.CreateProcess | TP2-SO-2025/Kernel/process.c:154-273 | the new process is in the table and ready, an invalid priority is replaced by the default, terminated processes are reaped |
| Scheduler.Scheduler.ReapTerminatedProcesses | TP2-SO-2025/Kernel/process.c:500-508 | exactly the terminated processes leave the table; queues and processor name only known processes afterwards if and only if they named none of these |
| Scheduler.Scheduler.ProcessTerminator | TP2-SO-2025/Kernel/process.c:590-599 | the running process is terminated, queued nowhere, and the processor free |
| Scheduler.Scheduler.KillProcess | TP2-SO-2025/Kernel/process.c:353-405 | refuses idle, init and unknown pids; otherwise the process is out of table, queue and processor, and a pid is left behind in a queue exactly when it stood in another one too |
| Scheduler.Scheduler.ChangePriority | TP2-SO-2025/Kernel/process.c:300-317 | records the priority, also as the original one, and a new quantum, and nothing else |
| Scheduler.Scheduler.YieldCpu | TP2-SO-2025/Kernel/process.c:283-291 | the rest of the quantum is given up and the scheduler entered |
| SchedulerInvariant.AgeFirstInv | TP2-SO-2025/Kernel/scheduler.c:85-111 | aging any first part of a queue keeps the partition of processes into queues |
| SchedulerInvariant.TickInv | TP2-SO-2025/Kernel/scheduler.c:211-300 | a call of schedule() keeps it, and never returns early inside a quantum |
| SchedulerInvariant.BlockInv | TP2-SO-2025/Kernel/scheduler.c:326-336 | blocking keeps it |
| SchedulerInvariant.UnblockInv | TP2-SO-2025/Kernel/scheduler.c:315-324 | waking keeps it |
| SchedulerInvariant.CreateInv | TP2-SO-2025/Kernel/process.c:154-273 | creation keeps it |
| SchedulerInvariant.ExitInv | TP2-SO-2025/Kernel/process.c:590-599 | ending keeps it |
| SchedulerInvariant.KillInv | TP2-SO-2025/Kernel/process.c:353-405 | killing keeps it |
| SchedulerInvariant.SetPriorityInv | TP2-SO-2025/Kernel/process.c:300-317 | a new priority keeps the invariant if and only if the process does not stand in a queue or the priority is its old one |
| SchedulerInvariant.StepInv | TP2-SO-2025/Kernel/scheduler.c:168-343 | every kernel operation on processes keeps it, a new priority for a queued process excepted |
| SchedulerTheorems.Partition | TP2-SO-2025/Kernel/scheduler.c:62-71 | in every run from boot that moves no queued process, a ready process stands in the ready queues exactly once, in the queue of its priority, any other process nowhere, and a running process is running_process |
| SchedulerTheorems.MovedThenKilled | TP2-SO-2025/Kernel/process.c:310-314 | a queued process given another priority and then killed leaves its pid in a queue although it is gone from the table |
| SchedulerTheorems.MovedWhileQueued | TP2-SO-2025/Kernel/process.c:300-317 | in every state with a free pid that situation can be brought about |
| SchedulerTheorems.UnblockUndoesBlock | TP2-SO-2025/Kernel/scheduler.c:315-343 | blocking and waking a process moves it to the back of its queue and changes nothing else |
| SchedulerTheorems.KillUndoesCreate | TP2-SO-2025/Kernel/process.c:154-405 | killing a process just created restores the state before |
| SchedulerTheorems.AgingPass | TP2-SO-2025/Kernel/scheduler.c:85-111 | one pass exactly: a head that is due moves up alone and ends the pass, otherwise each process is aged once and those due move to the top queue |
| SchedulerTheorems.KeepsOrder | TP2-SO-2025/Kernel/scheduler.c:95-106 | processes that move together, or stay together, keep their order |
| AgingPasses.OneTurn | TP2-SO-2025/Kernel/scheduler.c:88-106 | each round of the aging loop ages one more process of the turn |
| AgingPasses.IterAfter | TP2-SO-2025/Kernel/datastructures/queue.c:122-124 | after a removal under the iterator it is back at the head exactly when the pass is over, unless the queue was emptied |
| SchedulerTheorems.ServesHighest | TP2-SO-2025/Kernel/scheduler.c:241-264 | a decision serves the highest priority with a ready process, and the longest queued there |
| SchedulerEffects.DispatchFalls | TP2-SO-2025/Kernel/scheduler.c:239-272 | a decision falls on the first runnable process of the highest queue that has one, or on idle; what is dropped on the way was not runnable, and everything else stays queued in order |
| SchedulerEffects.StartsAfresh | TP2-SO-2025/Kernel/scheduler.c:280-285 | after every call of schedule() somebody runs, and unless it is idle has a full quantum and has waited for no tick |
| SchedulerEffects.TurnOver | TP2-SO-2025/Kernel/scheduler.c:218-237 | what becomes of the process whose turn is over, in each of its states, and that nobody else is concerned |
| SchedulerEffects.RoundRobin | TP2-SO-2025/Kernel/scheduler.c:227-237 | an interrupted process is given the processor again or stands at the very end of the queue of its priority |
| SchedulerEffects.QuantumGoesOn | TP2-SO-2025/Kernel/scheduler.c:228-231 | a process with more than one tick left keeps the processor and has one tick less |
| SchedulerEffects.YieldEndsTurn | TP2-SO-2025/Kernel/process.c:283-291 | after giving up the processor a process does not go on, however much of its quantum is left |
| SchedulerEffects.ExitEnds | TP2-SO-2025/Kernel/process.c:590-599 | a process that ends is terminated: queued nowhere, off the processor, not to be woken or blocked, taken away by the next reaping, its pid free from then on; nobody else is concerned |
| SchedulerEffects.KillEnds | TP2-SO-2025/Kernel/process.c:353-405 | a killed process is gone from table, queues and processor and its pid is free; the others keep their order |
| SchedulerEffects.ReapsEnded | TP2-SO-2025/Kernel/process.c:500-508 | exactly the terminated processes are taken out of the table |
| SchedulerEffects.BlockStops | TP2-SO-2025/Kernel/scheduler.c:326-343 | a blocked process is in no queue and has waited for no tick, the others keep their order; idle, init, blocked and terminated processes are left alone |
| SchedulerEffects.UnblockWakes | TP2-SO-2025/Kernel/scheduler.c:315-324 | a blocked process that is woken waits at the end of the queue of its priority; all others are left alone |
| SchedulerEffects.CreateAdds | TP2-SO-2025/Kernel/process.c:154-273 | a new process has the lowest free pid and waits at the end of the queue of its priority, which is 0 unless it is from 0 to 3, and terminated processes are gone |
| SchedulerEffects.CreateFails | TP2-SO-2025/Kernel/process.c:122-129 | with all 64 pids in use nothing happens |
| SchedulerEffects.PriorityIsSet | TP2-SO-2025/Kernel/process.c:300-317 | a priority from 0 to 3 is recorded, as the original one too, with a full quantum, and nothing else is changed; other priorities are refused |
| SchedulerEffects.PriorityTakesEffect | TP2-SO-2025/Kernel/process.c:300-317 | a running process that is given a priority goes on with it, or stands at the end of its queue after the next call of schedule() |
| SchedulerTheorems.BoostIsPermanent | TP2-SO-2025/Kernel/scheduler.c:115-125 | a process moved up by aging does not get its original priority back when it runs: after a scheduler call it has it if and only if it had it before and was not moved up in this call |
| SchedulerTheorems.AgingOf | TP2-SO-2025/Kernel/scheduler.c:78-113 | aging changes exactly the priority of a process that is due and whose queue the pass walks as far as to it |
| FirstProcesses.BoostReached | TP2-SO-2025/Kernel/scheduler.c:115-125 | in a run from boot a process comes to run at the top priority although it was never given any but the lowest |
| SchedulerTheorems.LoneTop | TP2-SO-2025/Kernel/scheduler.c:239-285 | a waiting process above all others runs next if nobody is due |
| SchedulerTheorems.OwnQueuePatience | TP2-SO-2025/Kernel/scheduler.c:85-111 | a pass over its queue brings a waiting process closer to its turn |
| SchedulerTheorems.TickPatience | TP2-SO-2025/Kernel/scheduler.c:211-300 | each call of schedule() runs a waiting process or uses up some of its patience |
| SchedulerTheorems.OtherPatience | TP2-SO-2025/Kernel/scheduler.c:168-343 | nothing done to other processes uses patience of a waiting one |
| SchedulerTheorems.PatienceBound | TP2-SO-2025/Kernel/include/scheduler.h:9-10 | patience starts below AGING_THRESHOLD + 2 * MAX_PROCESSES |
| SchedulerTheorems.NoStarvation | TP2-SO-2025/Kernel/scheduler.c:211-300 | a ready process that is not itself blocked, killed or given a priority runs within AGING_THRESHOLD + 2 * MAX_PROCESSES calls of schedule(), whatever the others do (short of being moved while queued) |
| Semaphores.SemRegistry.SemOpen | TP2-SO-2025/Kernel/sem.c:62-109 | a name that is too long is refused, a known one gains a user, a new one is registered with its value |
| Semaphores.SemRegistry.SemClose | TP2-SO-2025/Kernel/sem.c:111-152 | the last user takes the semaphore out of the registry |
| Semaphores.SemRegistry.SemWait | TP2-SO-2025/Kernel/sem.c:189-237 | a unit is taken, or the caller queues up, blocks and the scheduler is entered |
| Semaphores.SemRegistry.SemPost | TP2-SO-2025/Kernel/sem.c:155-187 | the longest waiting process is woken, or the value goes up |
| Semaphores.SemRegistry.RemoveFromSemaphore | TP2-SO-2025/Kernel/sem.c:287-297 | the process leaves the queue; answers whether it was there |
| SemaphoreTheorems.StaysStalled | TP2-SO-2025/Kernel/scheduler.c:315-343 | a blocked process stays blocked under everything but a wake-up or a kill of itself |
| SemaphoreTheorems.WaitStep | TP2-SO-2025/Kernel/sem.c:203-230 | a wait keeps the guarantees if and only if it does not make init or idle queue up |
| SemaphoreTheorems.InitPasses | TP2-SO-2025/Kernel/scheduler.c:326-329 | in a run from the start init waits on an empty semaphore, is queued there, and executes all the same |
| SemaphoreTheorems.PostStep | TP2-SO-2025/Kernel/sem.c:169-183 | a post keeps them if and only if the 16-bit value does not wrap |
| SemaphoreTheorems.PostCounts | TP2-SO-2025/Kernel/sem.c:179-183 | a post with nobody waiting adds one to the value, from 65535 to 0, and does nothing else |
| SemaphoreTheorems.SchedStep | TP2-SO-2025/Kernel/sem.c:172-177 | a process operation keeps them if and only if it neither kills nor wakes a process waiting in a semaphore, nor moves a queued one |
| SemaphoreTheorems.StepKeeps | TP2-SO-2025/Kernel/sem.c:62-237 | every operation keeps them if and only if it is not one of those |
| SemaphoreTheorems.Conservation | TP2-SO-2025/Kernel/sem.c:155-237 | in every run without those operations: initial value + posts = value + grants, a unit is left only when nobody waits, every waiting process is live and blocked once in one place, and grants follow the order of asking |
| SemaphoreTheorems.HandOff | TP2-SO-2025/Kernel/sem.c:169-178 | a post with processes waiting makes the first one ready and leaves no unit for others to take |
| SemaphoreTheorems.GrantedRuns | TP2-SO-2025/Kernel/sem.c:169-178 | the process a unit was handed to runs within the scheduler bound, whatever scheduling, waiting, posting, opening and closing goes on meanwhile |
| SemaphoreTheorems.StepPatience | TP2-SO-2025/Kernel/sem.c:155-237 | no semaphore or process operation delays a waiting process it is not aimed at |
| SemaphoreTheorems.KilledWaiterLosesPost | TP2-SO-2025/Kernel/sem.c:172-177 | when the first waiting process has been killed, the next post is used up and granted to nobody |
| SemaphoreTheorems.PostIsLost | TP2-SO-2025/Kernel/sem.c:172-177 | in a run from the start a process opens a semaphore and waits, is killed, and a post is lost on it |
| SemaphoreTheorems.CloseUndoesOpen | TP2-SO-2025/Kernel/sem.c:62-152 | closing undoes opening, for new and for known semaphores |
| SemaphoreTheorems.CloseStrands | TP2-SO-2025/Kernel/sem.c:111-152 | a close strands exactly the processes that wait in a semaphore with one user left: blocked, and in no semaphore any more |
| SemaphoreTheorems.StrandedForever | TP2-SO-2025/Kernel/sem.c:155-237 | a stranded process stays blocked in every run in which no system call wakes or kills it by its pid |
| SemaphoreTheorems.WaiterStranded | TP2-SO-2025/Kernel/sem.c:111-152 | in a run from the start the last user closes a semaphore under the process that waits in it |
| MVarTheorems.WaitGranted | TP2-SO-2025/Userland/Shell/commands/mvar.c:63-65 | a wait granted at once takes the token out of the semaphore |
| MVarTheorems.WaitParks | TP2-SO-2025/Userland/Shell/commands/mvar.c:84-86 | a wait without a unit parks the caller and moves no token |
| MVarTheorems.PostStored | TP2-SO-2025/Userland/Shell/commands/mvar.c:70-73 | a post with nobody waiting puts the token into the semaphore |
| MVarTheorems.PostHandsOver | TP2-SO-2025/Userland/Shell/commands/mvar.c:93-95 | a post with somebody waiting hands the token over |
| MVarTheorems.SlotCall | TP2-SO-2025/Userland/Shell/commands/mvar.c:67-90 | setting, reading and clearing the slot happen only with the token and keep the history in step |
| MVarTheorems.ActKeeps | TP2-SO-2025/Userland/Shell/commands/mvar.c:57-98 | every call of every participant keeps the one-token invariant |
| MVarTheorems.OneSlot | TP2-SO-2025/Userland/Shell/commands/mvar.c:57-98 | values read are a prefix of the values put, at most one shorter, and what mvarGet has handed to its callers is a prefix of what was read, at most one shorter |
| MVarTheorems.GetReturnsPut | TP2-SO-2025/Userland/Shell/commands/mvar.c:80-98 | a whole mvarGet hands its caller the value that was put last |
| MVarTheorems.SomebodyRuns | TP2-SO-2025/Userland/Shell/commands/mvar.c:57-98 | with a writer and a reader, some participant is not waiting |
| MVarTheorems.SecondInit | TP2-SO-2025/Userland/Shell/commands/mvar.c:34-46 | running mvarInit again keeps the invariant if and only if the slot is empty |
| MVarTheorems.SecondInitLosesValue | TP2-SO-2025/Userland/Shell/commands/mvar.c:34-46 | otherwise the next reader gets the zero that stands for a failure |
| MVarTheorems.ValueIsLost | TP2-SO-2025/Userland/Shell/commands/mvar.c:34-46 | a writer puts a value into a new MVar, mvarInit is run again, and a reader is handed the zero |
| MVarTheorems.NewcomerKeeps | TP2-SO-2025/Userland/Shell/commands/mvar.c:157-181 | a participant may join at any time |
| SemaphoreClients.ForeignKeeps | TP2-SO-2025/Kernel/sem.c:155-237 | nothing the rest of the system does makes processes that cooperate through semaphores of their own start or stop waiting, or changes these semaphores |
| SemaphoreClients.WaitKeeps | TP2-SO-2025/Kernel/sem.c:203-230 | a wait by one of them takes a unit, or blocks it and nobody else |
| SemaphoreClients.PostKeeps | TP2-SO-2025/Kernel/sem.c:169-183 | a post wakes the one that has waited longest and nobody else |
| SemaphoreClients.JoinKeeps | TP2-SO-2025/Kernel/process.c:154-273 | a process that is not blocked waits in none of them, and may join |
| MVarSystem.ParticipantKeeps | TP2-SO-2025/Userland/Shell/commands/mvar.c:57-98 | on the kernel, each call of an executing participant is the step of the protocol, and participants are blocked exactly while they wait |
| MVarSystem.OneSlotChannel | TP2-SO-2025/Userland/Shell/commands/mvar.c:57-98 | for any numbers of readers and writers, created at any time, and any interleaving: one token in all, values read in the order they were put and at most one behind, each handed to a caller of mvarGet in that order and none of them its failure value |
| MVarSystem.NeverAllBlocked | TP2-SO-2025/Userland/Shell/commands/mvar.c:57-98 | with at least one writer and one reader, some participant is always ready or running |
| Pipe.NextIdx | TP2-SO-2025/Kernel/pipe.c:16-16 | the index goes round at the end of the buffer |
| Pipe.PreviousIdx | TP2-SO-2025/Kernel/pipe.c:17-17 | is the inverse of the next index |
| Pipe.EmptyAndFull | TP2-SO-2025/Kernel/pipe.c:151-192 | equal indices mean an empty ring, and a write index just behind the read index a full one |
| Pipe.TakeFirst | TP2-SO-2025/Kernel/pipe.c:166-167 | reading at the read index and moving it takes the oldest byte |
| Pipe.StoreLast | TP2-SO-2025/Kernel/pipe.c:200-201 | writing at the write index and moving it appends the byte, or makes a full ring look empty |
| Pipe.Ring.constructor | TP2-SO-2025/Kernel/pipe.c:271-312 | an empty ring with both ends expected and none attached |
| Pipe.Ring.StartRead | TP2-SO-2025/Kernel/pipe.c:144-180 | readPipe up to the point where it blocks or returns: end of file, waiting, or the bytes |
| Pipe.Ring.FinishRead | TP2-SO-2025/Kernel/pipe.c:163-179 | the bytes returned are the oldest ones, as many as asked for or as there are, and a waiting writer is let go on |
| Pipe.Ring.Drain | TP2-SO-2025/Kernel/pipe.c:163-169 | the copy loop moves exactly that prefix into the buffer of the caller |
| Pipe.Ring.PutAll | TP2-SO-2025/Kernel/pipe.c:191-203 | the write loop stores bytes in order until done or blocked |
| Pipe.Ring.StartWrite | TP2-SO-2025/Kernel/pipe.c:182-214 | writePipe up to the point where it blocks or returns; a completed write lets a waiting reader go on |
| Pipe.Ring.ResumeWrite | TP2-SO-2025/Kernel/pipe.c:200-214 | what a woken writer still does, without testing the ring again |
| Pipe.Ring.WakeAll | TP2-SO-2025/Kernel/pipe.c:95-98 | posts as often as the semaphore had users |
| Pipe.Ring.AttachReader | TP2-SO-2025/Kernel/pipe.c:77-84 | one reader more attached, one fewer expected |
| Pipe.Ring.AttachWriter | TP2-SO-2025/Kernel/pipe.c:86-93 | one writer more attached, one fewer expected |
| Pipe.Ring.DetachReader | TP2-SO-2025/Kernel/pipe.c:100-120 | one reader fewer, the last one waking a waiting writer; tells when the pipe is abandoned |
| Pipe.Ring.DetachWriter | TP2-SO-2025/Kernel/pipe.c:122-142 | one writer fewer, the last one waking a waiting reader; tells when the pipe is abandoned |
| Pipe.Ring.ClosePipe | TP2-SO-2025/Kernel/pipe.c:231-257 | with at most one end attached both semaphores are posted; with none the pipe is to be deleted |
| PipeEffects.ReadDelivers | TP2-SO-2025/Kernel/pipe.c:163-179 | a read takes the oldest bytes, as many as asked for or all there are, leaves the rest in order, and lets a waiting writer go on exactly if it takes a byte |
| PipeEffects.ReadAnswers | TP2-SO-2025/Kernel/pipe.c:144-180 | readPipe blocks exactly on an empty ring with a writer attached or expected and no unit to take, and otherwise delivers |
| PipeEffects.PutsLast | TP2-SO-2025/Kernel/pipe.c:191-203 | a byte stored is the last of the ring, unless the ring is full: then all bytes disappear |
| PipeEffects.SpareUnitLosesRing | TP2-SO-2025/Kernel/pipe.c:191-203 | which happens to a writer let into a full ring by a unit left in the semaphore |
| PipeEffects.GivenTimes | TP2-SO-2025/Kernel/pipe.c:95-98 | posting n times wakes the n that have waited longest, and what is left over goes into the value |
| PipeEffects.ReaderDetaches | TP2-SO-2025/Kernel/pipe.c:100-120 | the last reader to detach wakes the writers that wait and takes their flag down, an earlier one takes along only its own end and its places in the queues |
| PipeEffects.WriterDetaches | TP2-SO-2025/Kernel/pipe.c:122-142 | likewise for writers |
| PipeEffects.ReaderComesAndGoes | TP2-SO-2025/Kernel/pipe.c:77-84 | a reader that attaches and detaches has used up one expected reader and left nothing else behind |
| PipeEffects.WriterComesAndGoes | TP2-SO-2025/Kernel/pipe.c:86-93 | likewise for writers |
| PipeEffects.Closes | TP2-SO-2025/Kernel/pipe.c:231-257 | with at most one end attached closing wakes everybody who waits, with more it does nothing |
| PipeProtocol.PutAllEffect | TP2-SO-2025/Kernel/pipe.c:191-203 | writing stores everything that fits in one go, and blocks on the rest |
| PipeProtocol.FinishReadKeeps | TP2-SO-2025/Kernel/pipe.c:163-177 | reading keeps the order of bytes and wakes a writer that waits |
| PipeProtocol.WriteKeeps | TP2-SO-2025/Kernel/pipe.c:182-214 | a write of at most the capacity keeps the invariant of the two ends |
| PipeProtocol.WriteResumesKeeps | TP2-SO-2025/Kernel/pipe.c:194-214 | a woken writer finds room, so that going on untested is safe |
| PipeProtocol.WriterLeavesKeeps | TP2-SO-2025/Kernel/pipe.c:122-142 | the writer may leave in any state; a waiting reader is woken |
| PipeProtocol.StepKeeps | TP2-SO-2025/Kernel/pipe.c:77-257 | every segment of either process keeps the invariant |
| PipeProtocol.FirstInFirstOut | TP2-SO-2025/Kernel/pipe.c:163-203 | in every run bytes read are a prefix of bytes written, with the rest in the ring, which never overflows |
| PipeProtocol.EveryReadDelivers | TP2-SO-2025/Kernel/pipe.c:144-180 | in every run a read that does not block, or is resumed, delivers as many bytes as asked for or all there are, and they are the next ones of the stream |
| PipeProtocol.EveryWriteStores | TP2-SO-2025/Kernel/pipe.c:182-214 | in every run a write that returns has stored all its bytes, and one that blocks has filled the ring with the first of them |
| PipeProtocol.ReaderLeavingWakes | TP2-SO-2025/Kernel/pipe.c:112-115 | a reader that detaches lets a blocked writer go |
| PipeProtocol.EndOfFile | TP2-SO-2025/Kernel/pipe.c:151-161 | a read of at least one byte returns 0 if and only if no writer is attached or expected and every byte written has been read |
| PipeProtocol.NeverBothBlocked | TP2-SO-2025/Kernel/pipe.c:151-211 | reader and writer are never both blocked, a blocked reader faces an empty ring, a blocked writer a full one, and the waiting flags say who waits |
| PipeProtocol.OtherEndWakes | TP2-SO-2025/Kernel/pipe.c:171-211 | whoever is blocked is woken by the next call of the other end |
| PipeProtocol.OversizedWriteDeadlocks | TP2-SO-2025/Kernel/pipe.c:191-211 | with the reader blocked, a write leaves both blocked if and only if it is larger than the ring, and then neither can make another call |
| PipeProtocol.DeadlockReached | TP2-SO-2025/Kernel/pipe.c:191-211 | a run from the opened pipe reaches it: the reader comes first and the first write is too large |
| PipeSystem.ReadKeeps | TP2-SO-2025/Kernel/pipe.c:144-180 | on the kernel, a segment of readPipe makes its semaphore calls and leaves each process blocked exactly if it waits |
| PipeSystem.WriteKeeps | TP2-SO-2025/Kernel/pipe.c:182-214 | so does a segment of writePipe |
| PipeSystem.LeaveKeeps | TP2-SO-2025/Kernel/process.c:571-576 | so do the calls of a writer that leaves: two withdrawals and two or three posts |
| PipeSystem.AttachKeeps | TP2-SO-2025/Kernel/process.c:255-264 | either process may be created and attached when the other has long been using the pipe |
| PipeSystem.PipeOnTheKernel | TP2-SO-2025/Kernel/pipe.c:144-214 | whatever the rest of the system does, and whenever the two processes are created, bytes come out in the order they went in, reader and writer are never both blocked by the scheduler, and each is blocked only by an empty, or a full, ring |
| PipeSystem.EndOfFileOnTheKernel | TP2-SO-2025/Kernel/pipe.c:151-161 | there, too, a read returns 0 if and only if the stream has ended |
| PipeSystem.ReadOnTheKernel | TP2-SO-2025/Kernel/pipe.c:144-180 | there, too, a read delivers as many bytes as asked for, or all there are |
| PipeLifetime.OpenKeeps | TP2-SO-2025/Kernel/pipe.c:59-75 | a new pipe gets an id never used before |
| PipeLifetime.AttachKeeps | TP2-SO-2025/Kernel/pipe.c:77-93 | attaching counts exactly the new end |
| PipeLifetime.DetachKeeps | TP2-SO-2025/Kernel/pipe.c:100-142 | detaching uncounts exactly that end and deletes only a pipe without ends |
| PipeLifetime.CloseKeeps | TP2-SO-2025/Kernel/pipe.c:231-257 | closing deletes only a pipe without ends |
| PipeLifetime.OpenAdds | TP2-SO-2025/Kernel/pipe.c:59-75 | a new pipe is empty, has the next id and expects both ends; after a hundred ids there are no more |
| PipeLifetime.DetachDeletes | TP2-SO-2025/Kernel/pipe.c:100-142 | detaching deletes a pipe exactly when nobody is attached any more and nobody is expected |
| PipeLifetime.CloseDeletes | TP2-SO-2025/Kernel/pipe.c:231-257 | closing deletes it exactly when nobody is attached |
| PipeLifetime.EndDeletes | TP2-SO-2025/Kernel/process.c:565-576 | when a process with different pipes on its two sides ends or is killed, each of them is deleted exactly when no end is left attached to it |
| PipeLifetime.LeaveKeeps | TP2-SO-2025/Kernel/process.c:565-576 | detaching and closing both targets of a process that ends keeps counts and ends in step, also when the first call has deleted the pipe or both targets are one pipe |
| PipeLifetime.SpawnKeeps | TP2-SO-2025/Kernel/process.c:255-264 | so does attaching both targets of a new process |
| PipeLifetime.KillEnded | TP2-SO-2025/Kernel/process.c:353-376 | killing a process that has ended but is not reaped detaches a second time, and keeps the counts if and only if its pipes have no such ends left |
| PipeLifetime.KilledTwice | TP2-SO-2025/Kernel/process.c:353-376 | a run from boot reaches it: of two readers one ends and is then killed, and the pipe is deleted under the other |
| PipeLifetime.StepKeeps | TP2-SO-2025/Kernel/pipe.c:59-142 | every operation keeps counts and ends in step |
| PipeLifetime.Lifetime | TP2-SO-2025/Kernel/pipe.c:341-370 | in every run attached = readers + writers, below 256, and these are the ends really attached; ids of stored pipes are distinct, a pipe is stored while an end is attached, and no pipe is freed twice |
| WaitExit.StepKeeps | TP2-SO-2025/Kernel/process.c:378-388 | every semaphore call of either side keeps the handshake invariant |
| WaitExit.Handshake | TP2-SO-2025/Kernel/process.c:444-470 | for every interleaving: wait_child returns 0 only after a post for that child, waits exactly while there is none, and an earlier post is still there for it |
| WaitExit.WaitAnswers | TP2-SO-2025/Kernel/process.c:444-470 | wait_child answers -1 exactly when the child is not in the table; otherwise it waits, blocked exactly if there has been no post, and on being let go answers 0 with a unit and its own reference used up |
| WaitExit.WithoutTheReference | TP2-SO-2025/Kernel/process.c:247-253 | without the reference kept by the creator, an early post is lost and the waiter stays blocked whatever follows, unless the child is ended once more |
| WaitExit.WithTheReference | TP2-SO-2025/Kernel/process.c:247-253 | with it, the same events let the waiter go |
| WaitExit.ReusedPid | TP2-SO-2025/Kernel/process.c:122-129 | for a reused pid, whether the earlier child was waited for or not, the handshake starts clean if and only if no post of that child is left; otherwise waiting returns at once |
| WaitExit.UnwaitedPost | TP2-SO-2025/Kernel/process.c:378-388 | a run reaches it: a child ends with nobody waiting, and waiting for the next one with its pid returns before that one has ended |
| WaitExit.SecondPost | TP2-SO-2025/Kernel/process.c:378-388 | another does, too: of two posts for a child that was waited for one is left |
| WaitSystem.HandshakeKeeps | TP2-SO-2025/Kernel/process.c:378-388 | on the kernel, each call of either side is a step of the handshake, and closing never takes the semaphore away |
| WaitSystem.WaitOnTheKernel | TP2-SO-2025/Kernel/process.c:444-470 | whatever the rest of the system does, wait_child returns 0 only after a post, and the waiting process is blocked by the scheduler exactly as long as there has been none |

## Left out

- Context switching, interrupt set-up, drivers, video, sound, clock and boot loader: hardware effects. Stack pointers are
  not part of the model.
- The keyboard buffer, module loader, string and number formatting, `array.c` and `list.c`: nothing in them bears on the
  theorems.
- Parent and child lists, reparenting and `wait_all_children`: the lists keep stale pids, so the natural claims do not hold.
- The file-system utility of the boot loader.
- Foreground and background, names and arguments of processes.
- AgingEnds.PassEndsExactly: has no closed form for a queue whose first process becomes due away from the front and before
  another that waits, because that depends on when the others are due; `AgingEnds.PassEndsInTime` decides these.
- Scheduler.Scheduler.KillProcess: pids stand for process records, so that a pid left behind in a queue and later given
  to a new process names the new one; in the kernel it would name freed memory.
- Process and semaphore records are values in a table that the methods reassign; aliasing between pointers to the same
  record is not modelled. The ready queues of `Scheduler` are queues on values, the ones `Queue` is proved to implement.
- Pipes with several readers or writers waiting at once, a reader that leaves before the writer, and a writer that leaves
  before the reader attaches, in the protocol theorems.
- Changing the targets of a running process, which detaches from the old pipe before attaching to the new one.
- The contents of free memory beyond the headers of its blocks.
