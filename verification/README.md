# flix, modelled and verified in Dafny

flix is a small x86_64 kernel written in C++. This project models five of its components and
proves what they promise, over all inputs, all runs and all reachable states.

- **Virtual memory.** `PageEntry`, `RadixTree`, `DirectoryTables`, `DirectoryStore` and
  `UserPages` are the four-level tables: hardware entries next to software pointers, one kernel
  subtree shared by every directory, the destructor, and the walk over user pages.
  `VirtualMemory.Vm` edits the tables in place, and every operation is proved against its effect
  on flat maps from 36-bit page number to entry (`FlatSpace`, `AddressSpace`), where fork is shown
  to keep meaning. Runs of those operations (`AddressRuns`) give frame ownership, the isolation of
  user pages and an account of their frames; `FrameLoss` says exactly which other frames are lost.
  `SpaceEffects` states the effect of each operation entry by entry.
  `FrameMemory` is the frame bitmap.
  What the processor makes of the tables follows the 4-level paging and the access rights of the
  Intel 64 Software Developer's Manual, volume 3A, sections 4.5 and 4.6.
- **Kernel heap.** `HeapModel` is the list of blocks, `KernelHeap.KHeap` the array of 32-bit words
  with headers inside it. Positions are counted in words of 4 bytes, which makes alignment part of
  the representation.
- **Page heap.** `PageHeaps.PageHeap`: allocating a block may need a page table, which comes from
  the same heap, so the allocator re-enters itself and draws on its pool. `TableBlocks` puts it
  into the address space it serves: runs of the heap, the address spaces and the page tables
  together keep the heap's view of its region equal to the kernel directory's flat map, and every
  table in a block that was handed out.
- **Blocking synchronisation and the scheduler.** `Scheduler.TaskManager`, the intrusive queues of
  `WaitQueues`, and a step machine on one processor (`Sync`). A region with interrupts disabled is
  one step; timer preemption may come between any two. `SyncInvariant`, `SyncFrames`, `SyncSteps`
  and `SyncLifetime` hold the invariant and show that every step keeps it; `SyncEffects` states what
  each step does to counts, queues, flags and scheduling states; `SyncTheorems`, `SyncFairness` and
  `SyncCounts` draw the conclusions over runs.
- **Archive reader and path lookup.** `Paths`, `Inodes`, `Cpio` and `ArchiveRoundTrip`, after the
  "Old Binary Format" section of cpio(5).

`Common` holds what several components share. `dafny verify dfyconfig.toml` checks the whole project.

## How to read the model

- A panic or a failed assertion of the source is a precondition where the callers have to avoid it
  (`MapPageTo`, `UnmapPage`, `Kfree`), and an error value where it depends on the input data (the
  archive reader).
- Blocks that the page heap hands to the page tables are a parameter `supply` of the operations
  that may need them, in the order in which they will be handed out. Their pages are mapped in the
  upper half already, so their frames are set aside; `SupplyInRuns` shows that the blocks of the
  page heap are such a supply.
- A page table is named by the block it lives in. The ghost-like map `lab` says where each table
  hangs; it is what makes "no table is reached by two paths, except the kernel's" provable.
- A directory is an object that holds an address space, so that the exchange of two directories in
  `unmapUserSpace` can be stated. The directory with number 0 is the kernel's.
- `FreshClean` is the assumption that memory not yet mapped to the kernel heap reads as unused at
  the start of each page. The source relies on it and never clears that bit.

## Properties that the code does not have

Each is stated with the exact condition under which it does hold, and a lemma names an input that
fails.

- Attributes read back as given: only if the slot carries no other right from an earlier mapping
  (`AttributesReadBack`, `StaleRightsSurvive`), because unmapping keeps the rights and mapping only
  adds some.
- Growing the heap after a used block yields one free block: only if the first fresh word has its
  used bit clear (`FreshWordDecides`, `DirtyFreshWord`).
- A request is rounded up: only up to 2^32 - 8 bytes (`RoundingIsSafe`, `HugeRequestWraps`).
- The heap grows enough for a request: only if the last block falls short by at most 2^32 - 2^12
  bytes; beyond that the page count wraps to 0 and a block in use can be handed out again
  (`PageCountIsSafe`, `MallocServes`, `WrappedGrowth`).
- Taking a directory down leaves no frame marked that nothing uses: if and only if the directory has no
  present page in the upper half outside the kernel gigabyte (`StepLosesNothingIff`,
  `NothingLostIff`, `LostExactly`). Such pages are dropped and their frames are not freed; the stack
  that boot maps for the first task is one (`StackFrameLost`).
- `up` adds one to the counter: not when the 32-bit counter is full (`FullCounterWraps`,
  `SemaphoreLaw`).
- A free block of exactly the requested size is taken: only if it is the last block and no larger one
  is free (`ExactFit`, `ExactPassedOver`). The scan asks for a strictly larger block, whatever its
  comment says, and the model follows the code.
- A Runnable task `t` is bypassed by another task `u` at most once: for every history if and only if
  no identifier lies between them, `t <= u + 1` (`BypassedOnceIff`, `ExitStartsOver`). An exit
  restarts the search at the lowest task, so each exit of a task between `u` and `t` may add one,
  and no other exit does (`BypassBound`); a run meets that bound (`BoundMetInRuns`).

## Model

| member | source | states |
|---|---|---|
| `PageEntry.AttributesReadBack` | source/PageDirectory.cpp:25-35 | mapping a slot reads back the given attributes if and only if the slot holds no other right from before; a slot never used always does |
| `PageEntry.StaleRightsSurvive` | source/PageDirectory.cpp:249-262 | a write right outlives its unmapping and is then found on a read-only mapping of the slot |
| `PageEntry.IndicesRoundTrip` | source/PageManager.hpp:182-189 | the four table indices of a page number built from four indices are those indices |
| `PageEntry.AddressRoundTrip` | source/PageDirectory.hpp:126-130 | the address put together from four indices with its sign extended is canonical, page aligned and belongs to that page |
| `PageEntry.CanonicalRebuilt` | source/PageManager.hpp:182-189 | every canonical page address is rebuilt from its own indices |
| `PageEntry.AddressSplit` | source/PageManager.hpp:182-189 | for every address, aligned or not, page number and offset make up its low 48 bits |
| `PageEntry.WithinPage` | source/PageManager.hpp:182-185 | every address of a page belongs to that page |
| `RadixTree.SetLeafEffect` | source/PageDirectory.cpp:190-201 | one entry written through four levels changes that page of that directory, in the kernel gigabyte that page of every directory, and no other translation |
| `RadixTree.AddTableSound` | source/PageManager.hpp:373-401 | creating a missing table keeps every interior entry present exactly when its pointer is set, with the table's own physical page and all rights |
| `RadixTree.AddTableKeepsLeaves` | source/PageManager.hpp:373-401 | a table just created changes no walk that succeeded before |
| `RadixTree.KernelShared` | source/PageDirectory.cpp:46-57 | two directories joined to the kernel translate every address of the kernel gigabyte through the very same entry |
| `RadixTree.HardwareAgrees` | source/PageDirectory.cpp:340-349 | the processor's walk over physical pages, combining rights on the way, finds exactly what the last-level entry says |
| `RadixTree.EffectiveRights` | source/PageDirectory.cpp:189-201 | in a slot not used before the effective rights are the ones asked for, at once or after the fault that serves a deferred page |
| `DirectoryTables.Destruct` | source/PageManager.hpp:304-323 | the destructor gives back each table below once, and precisely those not below slot 511 of a third-level table |
| `DirectoryTables.Release` | source/PageManager.hpp:334-342 | releasing a root gives back precisely the tables of its own space outside the slots passed over, none twice |
| `DirectoryTables.FreedNotReachable` | source/PageManager.hpp:305-323 | no table given back for one space is on any path of another directory |
| `DirectoryStore.StoreCoherent` | source/PageManager.hpp:63-79 | in every well-formed store all directories agree on the kernel gigabyte |
| `DirectoryStore.SetLeafStore` | source/PageDirectory.cpp:190-201 | writing one entry refines the update of one page of the flat maps and keeps the store well formed |
| `DirectoryStore.AddTableStore` | source/PageManager.hpp:373-401 | creating a table leaves all flat maps as they are and the store well formed |
| `DirectoryStore.MakeStore` | source/PageDirectory.cpp:47-57 | a new directory has the kernel's pages in the kernel gigabyte and nothing elsewhere; the others are unchanged |
| `DirectoryStore.DropStore` | source/PageManager.hpp:334-342 | removing a directory leaves the flat maps of the others as they are and the store well formed |
| `UserPages.Visit` | source/PageDirectory.cpp:294-338 | the nested loops meet every valid lower-half page once, in ascending order, with the address rebuilt from its indices, and none of the upper half |
| `UserPages.NextAddress` | source/PageDirectory.cpp:305-310 | the test on the address passes over exactly the upper half |
| `VirtualMemory.Vm.constructor` | source/PageDirectory.cpp:37-44 | the first directory is well formed and maps nothing |
| `VirtualMemory.Vm.GetEntry` | source/PageManager.hpp:373-445 | the creating walk ends in the table of the page, keeps every pointer that was set and changes no flat map |
| `VirtualMemory.Vm.MapPageTo` | source/PageDirectory.cpp:142-201 | the flat maps change by exactly the one mapping, and the processor then finds the page at that frame with every right it had or was asked for, in the kernel gigabyte through every directory |
| `VirtualMemory.Vm.MapPage` | source/PageDirectory.cpp:229-247 | in either half the page is present on the lowest free frame, which alone is taken, with every right it had or was asked for, and the processor finds it so; a deferred page takes none and faults; no table goes, and new ones come from the supply |
| `VirtualMemory.Vm.UnmapPage` | source/PageDirectory.cpp:249-262 | the flat maps lose exactly that mapping, the processor faults on it, and the frame it had is returned |
| `VirtualMemory.Vm.HandleFault` | source/PageDirectory.cpp:351-371 | true if and only if the page was deferred; then it is present on the lowest free frame, which alone is taken, with the rights from before, the processor finds it, and no other page changes; else nothing changes |
| `VirtualMemory.Vm.Resolve` | source/PageDirectory.cpp:340-349 | gives the frame of the flat map, which is the one the processor finds, and nothing when the processor would fault |
| `VirtualMemory.Vm.MapKernel` | source/PageDirectory.cpp:37-57 | its steps end in a directory that holds the kernel gigabyte only |
| `VirtualMemory.Vm.ForEachUserPage` | source/PageDirectory.cpp:294-338 | the visited addresses are those of the valid lower-half pages of the flat map, ascending |
| `VirtualMemory.Vm.UnmapUserSpace` | source/PageDirectory.cpp:264-292 | the directory ends with the kernel gigabyte only, and the used frames lose exactly those under present lower-half pages; new tables come from the supply |
| `VirtualMemory.Vm.Destroy` | source/PageManager.hpp:304-342 | the other directories are unchanged; no table is given back twice or while a remaining directory walks through it |
| `VirtualMemory.Vm.CopyUserPage` | source/TaskManager.cpp:107-123 | one turn of the clone loop refines the flat copy of a page, reaching no panic or assertion of the mapping code; what the parent's page holds, the child's page holds on a frame that was free |
| `VirtualMemory.Vm.FillThroughScratch` | source/TaskManager.cpp:115-123 | maps the frame at the scratch page, copies the bytes there and unmaps it again |
| `VirtualMemory.Vm.Clone` | source/TaskManager.cpp:89-123 | cloning refines the flat fork over the pages visited; under every present user page of the parent the child has the same bytes, and no frame in use before has changed |
| `AddressSpace.ForkPreserves` | source/TaskManager.cpp:99-123 | the child has the parent's lower half: same pages, attributes, deferral and bytes, in frames that were free; nobody's mapping and no byte of a frame in use changes, and the scratch page is unmapped again |
| `SpaceEffects.MapEffect` | source/PageDirectory.cpp:229-247 | a mapped page, in either half and seen from every directory that shares it: frame, each right, attributes as asked for in a clear slot, the one frame taken, and nothing else changed |
| `SpaceEffects.MapAtEffect` | source/PageDirectory.cpp:163-201 | the same for a frame that is given |
| `SpaceEffects.FaultEffect` | source/PageDirectory.cpp:351-371 | a served page is present on the lowest free frame with the rights it had; any other fault changes nothing |
| `SpaceEffects.UnmapEffect` | source/PageDirectory.cpp:249-262 | an unmapped page has neither frame nor present bit, keeps its rights, and frees no frame |
| `SpaceEffects.AddDirectoryEffect` | source/PageDirectory.cpp:46-57 | a new directory has the kernel gigabyte and nothing else, and takes no frame |
| `SpaceEffects.TeardownEffect` | source/PageDirectory.cpp:264-292 | only the kernel gigabyte is left, and a frame is freed if and only if a present lower-half page was on it |
| `SpaceEffects.FreePageEffect` | source/PageHeap.cpp:113-120 | the page is gone and exactly its frame is free |
| `AddressRuns.VmStepIsolated` | source/PageDirectory.cpp:229-371 | every operation keeps the frames of user pages apart from each other and from everything set aside, and no frame mapped twice in the upper half |
| `AddressRuns.FrameOwnership` | source/PageDirectory.cpp:229-292 | in every run each frame under a present lower-half page is used, and two such pages of any directories share a frame only if they are the same page |
| `AddressRuns.UserIsolation` | source/PageDirectory.cpp:152-161 | in every run no present lower-half page shares its frame with a present upper-half page of any directory |
| `AddressRuns.FreePageIsolated` | source/PageHeap.cpp:113-120 | unmapping a kernel page and freeing its frame leaves everybody else's frames alone, so that its address can be mapped again |
| `AddressRuns.ReservedStays` | source/Memory.cpp:13-29 | a frame set aside stays in use and under no lower-half page until the kernel itself gives it back |
| `AddressRuns.NoUserFrameLost` | source/PageDirectory.cpp:279-291 | in every run a frame is in use and was not set aside if and only if a present lower-half page is on it: the lower halves lose no frame |
| `AddressRuns.UserFramesReturned` | source/TaskManager.cpp:18-27 | when no lower-half page is left, every frame taken for one has been returned |
| `FrameLoss.IdleStep` | source/PageDirectory.cpp:264-292 | after a step the frames in use under no page are those from before and those under the private upper-half pages of the directory it takes down, no more and no fewer |
| `FrameLoss.LostExactly` | source/PageDirectory.cpp:264-292 | in every run a frame is lost if and only if it was under such a page at some step that took its directory down |
| `FrameLoss.StepLosesNothingIff` | source/PageDirectory.cpp:264-292 | a step of a run loses no frame if and only if it takes down no directory with a present private upper-half page |
| `FrameLoss.NothingLostIff` | source/TaskManager.cpp:18-27 | a run loses no frame if and only if every directory it takes down has no such page just before |
| `FrameLoss.FrameAccount` | source/Memory.cpp:13-41 | in every run a frame is in use if and only if it is under a present page, was left unmapped by boot, or was lost |
| `FrameLoss.StackFrameLost` | source/main.cpp:55-64 | a directory, the first task's stack page in it, and `unmapUserSpace`: the frame of the stack is lost, from every state after boot |
| `AddressSpace.TeardownOwned` | source/PageDirectory.cpp:279-291 | after a teardown every other process still owns its frames alone |
| `VirtualMemory.Vm.FreeKernelPage` | source/PageHeap.cpp:113-120 | refines the unmapping and freeing of a page that no table lives in |
| `VirtualMemory.Vm.TablesIsolated` | source/PageManager.hpp:373-401 | no present lower-half page is on the frame of a page table |
| `FrameMemory.NextFreeBound` | source/Memory.cpp:13-29 | the lowest free frame is never beyond the number of used frames |
| `FrameMemory.Memory.GetFreePage` | source/Memory.cpp:13-29 | returns the lowest free frame and marks it alone; the counter stays the number of used frames |
| `FrameMemory.Memory.SetPageUsed` | source/Memory.cpp:43-53 | marks one frame, growing the bitmap if needed, and counts it |
| `FrameMemory.Memory.SetPageFree` | source/Memory.cpp:31-41 | clears one used frame and uncounts it |
| `FrameMemory.Memory.SetRangeUsed` | source/Memory.cpp:55-61 | marks exactly the range |
| `FrameMemory.Memory.CompleteRangeUsed` | source/Memory.cpp:63-70 | marks exactly the range, parts of which may be marked already |
| `HeapModel.RoundingIsSafe` | source/KHeap.cpp:104-107 | header and rounding yield the least multiple of 4 that holds both, if and only if the request is at most 2^32 - 8 |
| `HeapModel.HugeRequestWraps` | source/KHeap.cpp:104-107 | every larger 32-bit request wraps around to 0 or 4 bytes |
| `HeapModel.PageCountIsSafe` | source/KHeap.cpp:153-159 | the 32-bit page count covers what is missing if and only if the last block falls short by at most 2^32 - 2^12 bytes; beyond that it is 0 |
| `HeapModel.WrappedGrowth` | source/KHeap.cpp:153-173 | two requests after `init`, the second past that bound, are given the same block |
| `HeapModel.MallocServes` | source/KHeap.cpp:96-180 | the block handed out was free and is large enough if and only if the page count does not wrap |
| `HeapModel.ExactFit` | source/KHeap.cpp:119-171 | a free block of exactly the requested size is taken if and only if it is the last one and no larger one is free |
| `HeapModel.ExactPassedOver` | source/KHeap.cpp:121-129 | an exact block is passed over for a larger one further up |
| `HeapModel.MallocTiles` | source/KHeap.cpp:96-180 | after every allocation the blocks still tile the heap from its start to its new end |
| `HeapModel.MallocFits` | source/KHeap.cpp:109-180 | the block is large enough, wastes at most 8 bytes, and is the lowest free block strictly larger than the request if there is one |
| `HeapModel.GrowthIsMinimal` | source/KHeap.cpp:153-159 | otherwise the heap grows by the least number of pages that makes the last block fit |
| `HeapModel.MallocKeeps` | source/KHeap.cpp:96-180 | every block that was in use is still there, unchanged |
| `HeapModel.InitInv` | source/KHeap.cpp:67-94 | the state after `init` is the start of a run: tiled, the boot block in use, nothing handed out |
| `HeapModel.HeapRunInv` | source/KHeap.cpp:67-228 | in every run from `init` the blocks tile the heap, and blocks in use correspond to pointers handed out |
| `HeapModel.BoundariesStay` | source/KHeap.cpp:182-246 | a block boundary stays one for ever |
| `HeapModel.LivePayloadUntouched` | source/KHeap.cpp:96-246 | in every run a word of a payload that stays handed out keeps its value until its client stores another one, whatever is allocated, freed, split or grown meanwhile |
| `HeapModel.LivePayloadsDisjoint` | source/KHeap.cpp:96-180 | in every run, two payloads handed out have no word in common |
| `KernelHeap.HeaderBits` | source/KHeap.cpp:14-58 | size and used bit share a word without disturbing each other |
| `KernelHeap.FreshWordDecides` | source/KHeap.cpp:192-210 | growing after a used block gives one free block if and only if the first fresh word reads unused |
| `KernelHeap.DirtyFreshWord` | source/KHeap.cpp:192-210 | a fresh page whose first word is 1 becomes a used block |
| `KernelHeap.KHeap.constructor` | source/KHeap.cpp:67-94 | the boot information is the first block and used, the rest of the 2 MB is free, and nothing is handed out |
| `KernelHeap.KHeap.SplitBlock` | source/KHeap.cpp:230-246 | splits one block of the tiling in two and writes their two headers only |
| `KernelHeap.KHeap.EnlargeHeap` | source/KHeap.cpp:182-215 | refines growth of the tiling; every word that is not a header keeps its value |
| `KernelHeap.KHeap.Kmalloc` | source/KHeap.cpp:96-180 | refines allocation, returns the data of a block that nobody held, and changes no word of a payload held before |
| `KernelHeap.KHeap.Kfree` | source/KHeap.cpp:217-228 | refines freeing: clears the used bit of that block and changes no other word |
| `PageHeaps.OneTablePerBlock` | source/PageHeap.cpp:143-147 | both pages of a block are in one page table |
| `PageHeaps.PageHeap.AllocBlock` | source/PageHeap.cpp:35-59 | re-entered it takes the last pooled block; else it takes the lowest free block and at most one nested block, exactly when the page table is missing |
| `PageHeaps.PageHeap.AllocPage` | source/PageHeap.cpp:61-100 | the block is marked, counted and mapped, and the physical page recorded is the translation of its first page |
| `PageHeaps.PageHeap.MapHeapPage` | source/PageHeap.cpp:80-91 | mapping a page of the heap itself makes one nested allocation if its page table is missing, and none else |
| `PageHeaps.PageHeap.RefillPool` | source/PageHeap.cpp:127-141 | terminates with exactly 16 pooled blocks although each step may consume one; does nothing when re-entered |
| `PageHeaps.PageHeap.Kmalloc` | source/PageHeap.cpp:28-33 | hands out a block that was not marked, maps its pages on the lowest free frames and no other page, costs the pool one block exactly when a page table was added, and keeps marked blocks the disjoint union of live and pooled ones |
| `PageHeaps.WithinReach` | source/PageHeap.cpp:39-50 | fewer than 4096 allocations after a refill, or 256 after boot, the pool is not empty when the next block needs a page table |
| `PageHeaps.NextTable` | source/PageHeap.cpp:52-58 | the lowest free block is in an existing page table or in the first one that is missing |
| `PageHeaps.PageHeap.ForMapping` | source/PageDirectory.cpp:142-150 | the at most three tables of a mapping and its refill leave the pool full and the count of allocations at zero |
| `PageHeaps.PageHeap.ForDirectory` | source/PageDirectory.cpp:37-57 | a new directory takes two blocks without a refill, and the pool stays within its reach |
| `PageHeaps.PageHeap.Kfree` | source/PageHeap.cpp:102-125 | unmarks the block, unmaps its pages and frees exactly their frames, none for a static block |
| `TableBlocks.AllocLinked` | source/PageHeap.cpp:61-100 | an allocation of the heap is, on the flat map of the kernel directory, the mapping of the block's pages, writable and not executable, and keeps user pages isolated |
| `TableBlocks.FreeLinked` | source/PageHeap.cpp:102-125 | giving a block back is the unmapping and freeing of its pages |
| `TableBlocks.MemoryLinked` | source/PageDirectory.cpp:142-371 | mapping, faults, fork, teardown and destruction leave the heap's region and its frames alone |
| `TableBlocks.SupplyIsFresh` | source/PageManager.hpp:373-401 | blocks handed out that are no tables yet are free for tables: new, in distinct frames that are set aside and hold no table |
| `TableBlocks.PageMayGo` | source/PageHeap.cpp:113-120 | the pages of a block that is no table are mapped, set aside, and hold no table |
| `TableBlocks.MemoryTables` | source/PageDirectory.cpp:142-371 | mapping, faults, new directories, fork, teardown and destruction keep every page table in a block that was handed out |
| `TableBlocks.FreeKeepsTables` | source/PageHeap.cpp:102-125 | giving back a block without a table leaves every table in its block |
| `TableBlocks.SupplyInRuns` | source/PageManager.hpp:373-401 | in every run of the heap, the address spaces and the tables together, from boot on, blocks handed out without a table are such a supply |
| `TableBlocks.TablesInRuns` | source/PageManager.hpp:373-401 | in every such run a table is in a block handed out, on a frame set aside that no other table and no present lower-half page is on |
| `Scheduler.CyclicNext` | source/TaskManager.cpp:329-349 | the Runnable task nearest after the active one in cyclic order, itself last; none if and only if nobody is Runnable |
| `Scheduler.TaskManager.GetNext` | source/TaskManager.cpp:329-349 | the two passes terminate and return that task |
| `Scheduler.TaskManager.DoInterruptMasking` | source/TaskManager.cpp:420-441 | the timer is masked exactly when fewer than two tasks are Runnable |
| `Scheduler.TaskManager.UpdateNextTid` | source/TaskManager.cpp:50-55 | stops at the first identifier that is not in use |
| `Scheduler.TaskManager.AddTask` | source/TaskManager.cpp:57-87 | the task gets that identifier and the state given, and the timer is recomputed exactly when it is Runnable |
| `Scheduler.TaskManager.PrepareMeForSleep` | source/TaskManager.cpp:250-256 | only the active task changes, to Sleeping, and the timer follows |
| `Scheduler.TaskManager.WakeUpTask` | source/TaskManager.cpp:287-292 | only that task changes, to Runnable, and the timer follows |
| `Scheduler.TaskManager.ScheduleNext` | source/TaskManager.cpp:371-406 | the next task becomes active, or nobody when none is Runnable |
| `Scheduler.BypassBound` | source/TaskManager.cpp:329-349 | while `t` is Runnable and passed over, `u` is given the processor at most once, plus once for every exit of a task between `u` and `t` |
| `Scheduler.BypassedOnceIff` | source/TaskManager.cpp:329-349 | `u` bypasses `t` at most once in every history if and only if no identifier is between them |
| `Scheduler.BypassedAtMostOnce` | source/TaskManager.cpp:329-349 | without exits, no other task is given the processor twice while a Runnable task is passed over |
| `Scheduler.ExitStartsOver` | source/TaskManager.cpp:145-156 | for all `u < w < t` a history in which the exit of `w` lets `u` run twice while `t` was Runnable throughout, so that the bound is met |
| `WaitQueues.WaitQueue.Push` | source/Semaphore.cpp:41-50 | the linked list gains the waiter at its end |
| `WaitQueues.WaitQueue.Pop` | source/Semaphore.cpp:79-82 | the linked list loses its first waiter, which is returned |
| `WaitQueues.WaitQueue.DrainAll` | source/CondVar.cpp:101-110 | all waiters are collected in order and the list is empty |
| `WaitQueues.Semaphore.Down` | source/Semaphore.cpp:19-58 | takes a unit, or joins the end of the queue |
| `WaitQueues.Semaphore.Up` | source/Semaphore.cpp:61-87 | gives the unit to the first waiter, whose flag is set, or counts it modulo 2^32 |
| `SyncTheorems.StepKeeps` | source/Semaphore.cpp:36-58 | every step of every task keeps the whole invariant |
| `SyncEffects.UpEffect` | source/Semaphore.cpp:61-87 | without waiters the count grows by one modulo 2^32; else the first waiter leaves the queue with the unit, its flag up and Runnable; nothing else changes |
| `SyncEffects.DownEffect` | source/Semaphore.cpp:19-58 | a unit is taken if one is left, else the task is last in the queue and asleep; nothing else changes |
| `SyncEffects.WaitOnEffect` | source/CondVar.cpp:20-54 | the task is last in the queue and asleep, and its mutex has been released as by `up` |
| `SyncEffects.NotifyOneEffect` | source/CondVar.cpp:65-88 | exactly the first waiter leaves the queue and is in the hands of the notifier; nothing happens without waiters |
| `SyncEffects.NotifyAllEffect` | source/CondVar.cpp:90-118 | the queue is empty and the notifier holds exactly its waiters, in their order |
| `SyncEffects.WakeEffect` | source/CondVar.cpp:113-117 | per waiter the flag is raised, the task made Runnable and the timer recomputed, one statement a step |
| `SyncEffects.SleepEffect` | source/TaskManager.cpp:258-285 | a task woken in between goes on, any other gives the processor to the next Runnable task |
| `SyncEffects.CheckEffect` | source/Semaphore.cpp:52-57 | the flag is up in every reachable state; a mutex then has its new owner, and a condition wait goes on to lock |
| `SyncEffects.LockAgainEffect` | source/CondVar.cpp:60-60 | the mutex is taken or waited for on behalf of the condition wait |
| `SyncEffects.SwitchEffect` | source/TaskManager.cpp:371-406 | only the active task changes, to the cyclically next Runnable one or nobody |
| `SyncEffects.SpawnEffect` | source/TaskManager.cpp:57-87 | a new Runnable task with fresh state mutex and condition; nothing else changes but the timer |
| `SyncEffects.ExitEffect` | source/TaskManager.cpp:145-156 | the task is a zombie, the first that waits for it is awake, its state mutex is as free as before, and the search restarts at 0 |
| `SyncEffects.ClientMay` | source/Semaphore.hpp:8-20 | in every state that satisfies the invariant client code can call each operation its holdings allow |
| `SyncCounts.SemaphoreCounts` | source/Semaphore.cpp:19-87 | in every run the initial units and the releases among the steps equal the requests served and the count left, if and only if the counter has not overflowed; no history variable is involved |
| `SyncCounts.Histories` | source/Semaphore.cpp:19-87 | in every run the histories of a semaphore are the numbers of releases and requests among the steps |
| `SyncCounts.HandOver` | source/Semaphore.cpp:74-86 | in every run the first waiter is awake right after a release, no longer queued, and stays awake until it has left its wait |
| `SyncCounts.NotificationWakes` | source/CondVar.cpp:65-118 | in every run, once a notifier is through, everybody whom it took has been awake in that wait, and still is unless it has left it |
| `SyncTheorems.NoLostWakeUp` | source/TaskManager.cpp:250-292 | in every interleaving a Sleeping task is at one place of one waiter queue, or held by one notifier that has yet to wake it, and never both |
| `SyncTheorems.UpMeansRunnable` | source/CondVar.cpp:86-87 | a waiter that is up belongs to a Runnable task, unless its notifier is just about to make it so |
| `SyncTheorems.StaysAwake` | source/Semaphore.cpp:52-57 | in every run a Runnable task whose waiter is up stays Runnable and up until it leaves that wait |
| `SyncTheorems.IdleMeansQueued` | source/TaskManager.cpp:400-406 | when nobody is Runnable every task that is not a zombie sits in a waiter queue |
| `SyncTheorems.LoopBodyRunsOnce` | source/CondVar.cpp:47-55 | in every reachable state the loop condition finds the flag set, and a condition wait has released its mutex once |
| `SyncTheorems.NeverStuck` | source/CondVar.cpp:47-60 | in every reachable state an active task inside a wait or a notification can take the step that comes next |
| `SyncTheorems.SemaphoreLaw` | source/Semaphore.cpp:19-87 | grants follow arrival order, a positive count means no waiters, and initial count plus ups equals grants plus count if and only if the counter has not overflowed |
| `SyncTheorems.FullCounterWraps` | source/Semaphore.cpp:72-72 | one more `up` on a full counter without waiters leaves zero |
| `SyncTheorems.MutualExclusion` | source/Mutex.hpp:13-36 | a mutex released only by its holder has at most one holder in every reachable state |
| `SyncTheorems.WaitReturnsHolding` | source/CondVar.cpp:47-60 | a condition wait ends holding its mutex, as its only holder |
| `SyncTheorems.WaitNeedsNotification` | source/CondVar.cpp:65-118 | a condition wait that goes on to lock its mutex was taken off the queue by a notification of that variable in between |
| `SyncTheorems.NotifiedInOrder` | source/CondVar.cpp:79-87 | notifications serve the waiters of a condition variable in the order in which they came |
| `SyncTheorems.TimerFollowsRunnable` | source/TaskManager.cpp:420-441 | the timer is masked exactly when fewer than two tasks are Runnable, outside the window of a notifier that has yet to set it |
| `SyncTheorems.JoinSeesTheEnd` | source/TaskManager.cpp:193-197 | a parent waiting on a child's state has been notified if and only if the child is a zombie: it neither returns early nor misses the end |
| `SyncFairness.DeadForEver` | source/TaskManager.cpp:145-156 | in every run a task that has ended stays a zombie and is never active again |
| `SyncFairness.RunIsHistory` | source/TaskManager.cpp:145-156 | every step of a run keeps the active task, switches by the round-robin choice, or is an exit that leaves a zombie and searches from 0 |
| `SyncFairness.BoundMetInRuns` | source/TaskManager.cpp:145-156 | from every start a run of four tasks in which an exit lets task 1 run twice while 3 is Runnable throughout, which meets the bound |
| `SyncFairness.BypassInRuns` | source/TaskManager.cpp:329-349 | in every run the bound on bypassing holds, with the exits between the two tasks in that stretch |
| `Paths.SplitPath` | source/Fs.cpp:26-44 | the pass over the string yields components that join to it again, or, when merging, what it spells |
| `Paths.SplitJoin` | source/Fs.cpp:26-44 | splitting undoes joining of proper components |
| `Paths.JoinSplit` | source/Fs.cpp:26-44 | joining undoes splitting for every string, empty components included |
| `Paths.MergedSpells` | source/Fs.cpp:26-44 | the merged components are exactly what a left-to-right reading of the string spells |
| `Inodes.PushFind` | source/Cpio.cpp:81-87 | a new last child is found under its name and no other walk changes |
| `Inodes.ChildNamedFirst` | source/Cpio.cpp:81-87 | a folder finds its first child of the name, and none if and only if there is none |
| `Inodes.MakePathMakes` | source/Cpio.cpp:105-155 | on a free way the file and its missing folders are created and every other path leads where it did |
| `Inodes.MakePathOutcome` | source/Cpio.cpp:105-155 | for every path: no file and no change if and only if a component leads to no directory, and exactly when the two failed assertions come |
| `Inodes.DuplicateHidden` | source/Cpio.cpp:145-152 | a file made under a path that is taken changes where no path leads |
| `Cpio.CpioFs.MakeFile` | source/Cpio.cpp:105-155 | the pass over the characters refines the component-wise creation, with its three ways to fail |
| `Cpio.ParseAt` | source/Cpio.cpp:184-219 | parsing at a position yields what stands there: a record, the trailer, or an error |
| `Cpio.CpioFs.ReadArchive` | source/Cpio.cpp:177-223 | the loop refines the reading of the archive record by record, for all bytes |
| `Cpio.CpioFs.Lookup` | source/Fs.cpp:46-110 | refines the walk along the components of an absolute path, the link at the end not followed; any other path is invalid |
| `ArchiveRoundTrip.ParseEncoded` | source/Cpio.cpp:160-219 | an encoded record is parsed as itself, whatever follows it |
| `ArchiveRoundTrip.ParsedIsThere` | source/Cpio.cpp:160-219 | whatever is parsed as a record or as the trailer stands there byte for byte, up to padding |
| `ArchiveRoundTrip.ParseFails` | source/Cpio.cpp:186-205 | each refusal has its exact cause in the bytes |
| `ArchiveRoundTrip.RecordRead` | source/Cpio.cpp:184-219 | one record makes and fills a file, is passed over when its path leads through a file, or ends the reading |
| `ArchiveRoundTrip.RoundTrip` | source/Cpio.cpp:177-223 | every record of an archive is found with its bytes, size and mode under every path that spells its components; an absolute path leads somewhere if and only if it names a record or a directory on the way to one, and then to that |

## Left out

- Hardware and assembly: control registers, the TLB, port I/O, descriptor tables, boot code; a context switch is one abstract step.
- VirtualMemory.Vm.constructor: does not map what `initWithDefaultPaging` maps; it starts with the tables above the kernel gigabyte in place and nothing mapped. That boot maps no frame twice is part of the initial state of a run.
- VirtualMemory.Vm.MapPageTo: does not include the pages that the page heap maps in its own region when a table is created. `Vm` receives blocks that are mapped already as `supply`, where the source maps them in the middle of the operation, after it has taken the frame of the page itself; `TableBlocks` therefore has the allocation as a step of its own.
- The page heap of 4-page blocks for kernel stacks: it has no pool and no static pages, so it would only repeat the easy half.
- The heap address of a static page-heap block is assumed to be where the linker script and boot place it.
- Re-entry of the allocators from the growth of a standard vector, which the source marks as an open issue.
- A map of page-table memory that destruction does not give back: tables below slot 511 of third-level tables drop out of the model when their directory goes.
- The clone loop computes the pages to visit before it copies them; copying touches only the child and the scratch page, which is not among them.
- Cleared contents of a fresh frame: `mapPage` does not clear it, so nothing is promised about it.
- Keyboard interrupts that block in interrupt context; the only preemption is the timer.
- Task exit while the task's state mutex is held by somebody else, and the removal of a zombie from the task table after a wait.
- SyncFairness.DeadForEver: does not cover the time after a zombie was removed from the table, when its identifier is free again.
- Wrap-around of task identifiers, the task hierarchy, signals and system calls.
- The waiter counter of a condition variable, which only reserves memory.
- Following symbolic links: the number of indirections is never tested, so the lookup need not end.
- Archive records of directories: `makeFile` would later take their file inode for a folder. The model reports that case as `CastFile`.
- Reading past the end of an archive without a trailer, which the model reports as `Truncated`.
- ELF loading, screen, serial line, timer, keyboard and logging.
